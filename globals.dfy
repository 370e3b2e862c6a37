/**
 * The process-wide registry of global values (class `Globals`): a `stdClass`
 * whose properties are the globals, seeded with the built-in generators the
 * first time any operation touches it.
 */
module Globals {
  import opened Wrappers
  import opened Values
  import opened Strings
  import opened Expression

  /** `KEY_*`: the names of the reference modes. */
  function ModeName(m: Mode): string {
    match m
    case Variable => "variable"
    case Function(_) => "function"
    case ArrayIndex(_) => "array"
  }

  /** The built-in globals, in the order `initializeGlobals` defines them. */
  const BUILTIN_NAMES: seq<string> :=
    ["rand-integer", "rand-string", "rand-hash", "rand-boolean", "timestamp", "microtime"]

  /**
   * The values of the built-ins. The closures are opaque (their bodies draw
   * random numbers or read the clock); `rand-string` is the array callable
   * `[Util::class, 'readableRandomString']`.
   */
  function Builtins(): (m: map<string, Value>)
    ensures m.Keys == set k | k in BUILTIN_NAMES
  {
    map[
      "rand-integer" := Closure(0),
      "rand-string" := Arr([Str("Phramework\\Testphase\\Util"), Str("readableRandomString")]),
      "rand-hash" := Closure(1),
      "rand-boolean" := Closure(2),
      "timestamp" := Closure(3),
      "microtime" := Closure(4)
    ]
  }

  /**
   * What the registry leaves to the PHP runtime: which values `is_callable`
   * accepts (closures, names of defined functions, `[class, method]` arrays
   * naming an existing method, ...) and what calling one with string arguments
   * returns or throws.
   */
  datatype Runtime = Runtime(isCallable: Value -> bool, call: (Value, seq<string>) -> Result<Value, string>)

  /** Why `get` throws. */
  datatype GetError =
    | InvalidKey(reference: string)    // `Invalid key "%s"`
    | NotFound(key: string)            // NotFoundException
    | NotIndexable(typeName: string)   // PHP error: an object used as an array
    | CallFailed(message: string)      // the called global threw

  /** Why `set` throws. */
  datatype SetError = InvalidSetKey(key: string)

  /** The value of a decimal digit string. */
  function DecimalValue(s: string): (n: nat)
    requires forall k :: 0 <= k < |s| ==> IsDigit(s[k])
  {
    if |s| == 0 then 0
    else
      var digit := s[|s| - 1] as int - '0' as int;
      assert IsDigit(s[|s| - 1]);
      10 * DecimalValue(s[..|s| - 1]) + digit
  }

  /**
   * `$global[$index]` for a digit-string index: an element of a list, a
   * one-character string of a string; PHP 7 answers a missing element with
   * null (and a missing string offset with "") after a notice, answers null for
   * scalars, and throws for objects.
   */
  function Index(global: Value, index: string): (r: Result<Value, GetError>)
    requires IsIndex(index)
    ensures global.Arr? && DecimalValue(index) < |global.items| ==> r == Ok(global.items[DecimalValue(index)])
    ensures r.Err? <==> global.Obj? || global.Closure?
  {
    var n := DecimalValue(index);
    match global
    case Arr(items) => Ok(if n < |items| then items[n] else Null)
    case Str(s) => Ok(Str(if n < |s| then [s[n]] else ""))
    case Obj(_) => Err(NotIndexable("object"))
    case Closure(_) => Err(NotIndexable("object"))
    case _ => Ok(Null)
  }

  /** The arguments a call passes: the one parameter's raw text, or none. */
  function Arguments(parameter: Option<string>): (args: seq<string>)
    ensures parameter.None? ==> args == []
    ensures parameter.Some? ==> args == [parameter.value]
  {
    match parameter
    case None => []
    case Some(p) => [p]
  }

  /**
   * What `get(reference)` returns, given the registry's contents and the
   * runtime `php`: the value itself, an element of it, or the result of calling
   * it. `call_user_func_array` on a value that is not a valid callback makes
   * PHP 7 warn and return null.
   */
  function Lookup(view: map<string, Value>, reference: string, php: Runtime)
    : (r: Result<Value, GetError>)
  {
    match Parse(reference)
    case None => Err(InvalidKey(reference))
    case Some(e) =>
      if e.key !in view then Err(NotFound(e.key))
      else
        var global := view[e.key];
        match e.mode
        case Variable => Ok(global)
        case ArrayIndex(i) =>
          ParseSound(reference);
          Index(global, i)
        case Function(parameter) =>
          if !php.isCallable(global) then Ok(Null)
          else match php.call(global, Arguments(parameter))
            case Ok(v) => Ok(v)
            case Err(m) => Err(CallFailed(m))
  }

  /** The key check of `set`: the anchored key pattern, whose `$` also admits one final newline. */
  predicate IsSettableKey(key: string) {
    IsKey(key) || (|key| >= 1 && key[|key| - 1] == '\n' && IsKey(key[..|key| - 1]))
  }

  /** One line of `toString`: `"key": (type) value`. */
  function Describe(php: Runtime, key: string, v: Value): (r: Result<string, ConversionError>)
    ensures r.Ok? ==> StartsWith(r.value, "\"" + key + "\": (")
  {
    var prefix := "\"" + key + "\": (";
    if php.isCallable(v) then Ok(prefix + "callable) callable")
    else if v.Arr? then
      match Implode(", ", v.items)
      case Err(e) => Err(e)
      case Ok(s) => Ok(prefix + "array) " + s)
    else
      match ToPhpString(v)
      case Err(e) => Err(e)
      case Ok(s) => Ok(prefix + TypeName(v) + ") " + s)
  }

  /**
   * A line reads `(callable) callable` exactly when the runtime accepts the
   * value as callable, whatever its type; any other value shows its own type.
   */
  lemma DescribeCallable(php: Runtime, key: string, v: Value)
    ensures Describe(php, key, v) == Ok("\"" + key + "\": (callable) callable") <==> php.isCallable(v)
  {
    if php.isCallable(v) {
      assert "\"" + key + "\": (" + "callable) callable" == "\"" + key + "\": (callable) callable";
    } else {
      DescribeNotCallable(php, key, v);
    }
  }

  /** A value the runtime does not accept as callable is shown with its type, which never reads `callable`. */
  lemma DescribeNotCallable(php: Runtime, key: string, v: Value)
    requires !php.isCallable(v)
    ensures Describe(php, key, v) != Ok("\"" + key + "\": (callable) callable")
  {
    var prefix := "\"" + key + "\": (";
    assert "\"" + key + "\": (callable) callable" == prefix + "callable) callable";
    if Describe(php, key, v).Ok? {
      var rest := if v.Arr? then "array) " + Implode(", ", v.items).value
                  else TypeName(v) + ") " + ToPhpString(v).value;
      DescribeTyped(php, key, v);
      DiffersAfter(prefix, rest, "callable) callable");
    }
  }

  /** The line of a value the runtime does not accept as callable: its type, then its string form. */
  lemma DescribeTyped(php: Runtime, key: string, v: Value)
    requires !php.isCallable(v) && Describe(php, key, v).Ok?
    ensures v.Arr? ==> Describe(php, key, v).value == "\"" + key + "\": (" + ("array) " + Implode(", ", v.items).value)
    ensures !v.Arr? ==> Describe(php, key, v).value == "\"" + key + "\": (" + (TypeName(v) + ") " + ToPhpString(v).value)
  {
  }

  /** Texts after a common prefix that differ in their first character. */
  lemma DiffersAfter(prefix: string, x: string, y: string)
    requires |x| > 0 && |y| > 0 && x[0] != y[0]
    ensures prefix + x != prefix + y
  {
    assert (prefix + x)[|prefix|] == x[0];
  }

  /** A list the runtime does not accept as callable is shown by its items, `"x": (array) a, b`. */
  lemma DescribeListExample(php: Runtime)
    requires !php.isCallable(Arr([Str("a"), Str("b")]))
    ensures Describe(php, "x", Arr([Str("a"), Str("b")])) == Ok("\"x\": (array) a, b")
  {
    var items := [Str("a"), Str("b")];
    assert items[1..] == [Str("b")];
    assert Implode(", ", items[1..]) == Ok("b");
    assert Implode(", ", items) == Ok("a" + ", " + "b");
    assert "a" + ", " + "b" == "a, b";
    var prefix := "\"" + "x" + "\": (";
    assert prefix == "\"x\": (";
    assert prefix + "array) " + "a, b" == "\"x\": (array) a, b";
  }

  /** PHP's `implode`: the string forms of the items, separated by `glue`. */
  function Implode(glue: string, items: seq<Value>): Result<string, ConversionError> {
    if |items| == 0 then Ok("")
    else match ToPhpString(items[0])
      case Err(e) => Err(e)
      case Ok(first) =>
        if |items| == 1 then Ok(first)
        else match Implode(glue, items[1..])
          case Err(e) => Err(e)
          case Ok(rest) => Ok(first + glue + rest)
  }

  /** The lines of `toString` for the given names, or the first conversion failure. */
  function DescribeAll(php: Runtime, names: seq<string>, vars: map<string, Value>): Result<seq<string>, ConversionError>
    requires forall n :: n in names ==> n in vars
  {
    if |names| == 0 then Ok([])
    else match DescribeAll(php, names[..|names| - 1], vars)
      case Err(e) => Err(e)
      case Ok(lines) =>
        match Describe(php, names[|names| - 1], vars[names[|names| - 1]])
        case Err(e) => Err(e)
        case Ok(line) => Ok(lines + [line])
  }

  /** `implode(PHP_EOL, $lines)`. */
  function JoinLines(lines: seq<string>): string {
    if |lines| == 0 then ""
    else if |lines| == 1 then lines[0]
    else JoinLines(lines[..|lines| - 1]) + "\n" + lines[|lines| - 1]
  }

  /**
   * The registry itself. Until the first access it is unseeded (`$globals ===
   * null`); from then on `names` holds the property names in insertion order
   * and `vars` their values.
   */
  class Registry {
    var seeded: bool
    var names: seq<string>
    var vars: map<string, Value>

    ghost predicate Valid()
      reads this
    {
      && (forall i, j :: 0 <= i < j < |names| ==> names[i] != names[j])
      && (forall n :: n in names <==> n in vars)
      && (!seeded ==> names == [] && vars == map[])
    }

    /** The globals as every operation sees them: the built-ins until something is stored. */
    function View(): map<string, Value>
      reads this
    {
      if seeded then vars else Builtins()
    }

    /** The property names in the order `toString` lists them. */
    function Order(): seq<string>
      reads this
    {
      if seeded then names else BUILTIN_NAMES
    }

    constructor ()
      ensures Valid() && !seeded
      ensures View() == Builtins() && Order() == BUILTIN_NAMES
    {
      seeded := false;
      names := [];
      vars := map[];
    }

    /** `initializeGlobals`: replaces the contents by the six built-ins. */
    method InitializeGlobals()
      modifies this
      ensures Valid() && seeded
      ensures vars == Builtins() && names == BUILTIN_NAMES
    {
      seeded := true;
      names := BUILTIN_NAMES;
      vars := Builtins();
    }

    /** The lazy seeding every public operation starts with; what they see does not change. */
    method EnsureSeeded()
      requires Valid()
      modifies this
      ensures Valid() && seeded
      ensures View() == old(View()) && Order() == old(Order())
    {
      if !seeded {
        InitializeGlobals();
      }
    }

    /** `exists`: whether a global of that exact name is stored. */
    method Exists(key: string) returns (b: bool)
      requires Valid()
      modifies this
      ensures Valid() && seeded
      ensures View() == old(View()) && Order() == old(Order())
      ensures b <==> key in View()
    {
      EnsureSeeded();
      b := key in vars;
    }

    /** `get($key)`: resolves a reference against the globals. */
    method Get(reference: string, php: Runtime)
      returns (r: Result<Value, GetError>)
      requires Valid()
      modifies this
      ensures Valid() && seeded
      ensures View() == old(View()) && Order() == old(Order())
      ensures r == Lookup(View(), reference, php)
    {
      EnsureSeeded();
      var parsed := Parse(reference);
      if parsed.None? {
        return Err(InvalidKey(reference));
      }
      var e := parsed.value;
      var found := Exists(e.key);
      if !found {
        return Err(NotFound(e.key));
      }
      var global := vars[e.key];
      match e.mode {
        case Function(parameter) =>
          if php.isCallable(global) {
            var result := php.call(global, Arguments(parameter));
            r := if result.Ok? then Ok(result.value) else Err(CallFailed(result.error));
          } else {
            r := Ok(Null);
          }
        case ArrayIndex(i) =>
          ParseSound(reference);
          r := Index(global, i);
        case Variable =>
          r := Ok(global);
      }
    }

    /** `get()` without a key: the whole registry. */
    method GetAll() returns (all: map<string, Value>)
      requires Valid()
      modifies this
      ensures Valid() && seeded
      ensures View() == old(View()) && Order() == old(Order())
      ensures all == View()
    {
      EnsureSeeded();
      all := vars;
    }

    /**
     * `set`: stores `value` under `key`, overwriting silently; a key the
     * anchored key pattern refuses throws `Invalid key` and stores nothing.
     * A new name goes to the end of the property order, an existing one keeps
     * its place.
     */
    method Set(key: string, value: Value) returns (r: Result<(), SetError>)
      requires Valid()
      modifies this
      ensures Valid() && seeded
      ensures r.Ok? <==> IsSettableKey(key)
      ensures r.Ok? ==> View() == old(View())[key := value]
      ensures r.Ok? ==> Order() == if key in old(View()) then old(Order()) else old(Order()) + [key]
      ensures r.Err? ==> r == Err(InvalidSetKey(key)) && View() == old(View()) && Order() == old(Order())
    {
      EnsureSeeded();
      if !IsSettableKey(key) {
        return Err(InvalidSetKey(key));
      }
      if key !in vars {
        names := names + [key];
      }
      vars := vars[key := value];
      r := Ok(());
    }

    /**
     * `toString`: one `"key": (type) value` line per global, in property
     * order, joined by newlines. It does not seed: on an unseeded registry the
     * loop runs over null and yields "". Converting an object to a string
     * throws.
     */
    method ToString(php: Runtime) returns (r: Result<string, ConversionError>)
      requires Valid()
      ensures !seeded ==> r == Ok("")
      ensures seeded ==> r == (match DescribeAll(php, names, vars)
                               case Err(e) => Err(e)
                               case Ok(lines) => Ok(JoinLines(lines)))
    {
      if !seeded {
        return Ok("");
      }
      var lines: seq<string> := [];
      var i := 0;
      while i < |names|
        invariant 0 <= i <= |names|
        invariant DescribeAll(php, names[..i], vars) == Ok(lines)
      {
        assert names[..i + 1][..i] == names[..i];
        var line := Describe(php, names[i], vars[names[i]]);
        if line.Err? {
          assert DescribeAll(php, names[..i + 1], vars) == Err(line.error);
          DescribeAllErrPropagates(php, names, vars, i + 1);
          return Err(line.error);
        }
        lines := lines + [line.value];
        i := i + 1;
      }
      assert names[..i] == names;
      r := Ok(JoinLines(lines));
    }
  }

  /** Once a prefix of the names fails to describe, the whole list does. */
  lemma {:induction false} DescribeAllErrPropagates(php: Runtime, names: seq<string>, vars: map<string, Value>, i: nat)
    requires forall n :: n in names ==> n in vars
    requires i <= |names|
    requires DescribeAll(php, names[..i], vars).Err?
    ensures DescribeAll(php, names, vars) == DescribeAll(php, names[..i], vars)
    decreases |names| - i
  {
    if i < |names| {
      assert names[..i + 1][..i] == names[..i];
      DescribeAllErrPropagates(php, names, vars, i + 1);
    } else {
      assert names[..i] == names;
    }
  }

  // ---------------------------------------------------------------------------
  // Properties of the registry

  /** The seeded registry holds exactly the six built-in names. */
  lemma BuiltinNames()
    ensures Builtins().Keys == {"rand-integer", "rand-string", "rand-hash", "rand-boolean", "timestamp", "microtime"}
    ensures |BUILTIN_NAMES| == 6
  {
  }

  /** A reference that does not parse is an invalid key, whatever is stored. */
  lemma LookupInvalid(view: map<string, Value>, reference: string, php: Runtime)
    requires Parse(reference).None?
    ensures Lookup(view, reference, php) == Err(InvalidKey(reference))
  {
  }

  /** A parsable reference to an absent key is not found. */
  lemma LookupAbsent(view: map<string, Value>, reference: string, php: Runtime)
    requires Parse(reference).Some? && Parse(reference).value.key !in view
    ensures Lookup(view, reference, php) == Err(NotFound(Parse(reference).value.key))
  {
  }

  /** A bare key gives the stored value itself: an array whole, a callable uncalled. */
  lemma LookupVariable(view: map<string, Value>, key: string, php: Runtime)
    requires IsKey(key) && key in view
    ensures Lookup(view, key, php) == Ok(view[key])
  {
    ParseBareKey(key);
  }

  /** `key[i]` on a stored list gives element `i` when it exists, null otherwise. */
  lemma LookupElement(view: map<string, Value>, key: string, i: string, php: Runtime)
    requires IsKey(key) && IsIndex(i) && key in view && view[key].Arr?
    ensures Lookup(view, key + "[" + i + "]", php)
            == Ok(if DecimalValue(i) < |view[key].items| then view[key].items[DecimalValue(i)] else Null)
  {
    ParseIndexed(key, i);
  }

  /** `key()` and `key(p)` on a value the runtime does not accept as callable give null. */
  lemma LookupNotCallable(view: map<string, Value>, key: string, p: Option<string>, php: Runtime)
    requires IsKey(key) && key in view && !php.isCallable(view[key])
    requires p.Some? ==> IsParameter(p.value)
    ensures Lookup(view, Render(Expr(key, Function(p))), php) == Ok(Null)
  {
    RenderParses(Expr(key, Function(p)));
  }

  /** `key()` calls the stored callable with no arguments, `key(p)` with the raw text of `p`. */
  lemma LookupCall(view: map<string, Value>, key: string, p: Option<string>, php: Runtime)
    requires IsKey(key) && key in view && php.isCallable(view[key])
    requires p.Some? ==> IsParameter(p.value)
    ensures var args := if p.Some? then [p.value] else [];
            var reference := Render(Expr(key, Function(p)));
            Lookup(view, reference, php)
              == (match php.call(view[key], args) case Ok(v) => Ok(v) case Err(m) => Err(CallFailed(m)))
  {
    RenderParses(Expr(key, Function(p)));
  }

  /** After a successful `set(k, v)`, `exists(k)` holds and a bare `get(k)` yields `v`. */
  lemma SetThenGet(view: map<string, Value>, key: string, v: Value, php: Runtime)
    requires IsKey(key)
    ensures key in view[key := v]
    ensures Lookup(view[key := v], key, php) == Ok(v)
  {
    LookupVariable(view[key := v], key, php);
  }

  /** `set` overwrites: after `set(k, a); set(k, b)` a bare `get(k)` yields `b`, and every other key is untouched. */
  lemma SetOverwrites(view: map<string, Value>, key: string, a: Value, b: Value, php: Runtime)
    requires IsKey(key)
    ensures Lookup(view[key := a][key := b], key, php) == Ok(b)
    ensures forall other :: other != key ==> (other in view[key := a][key := b] <==> other in view)
    ensures forall other :: other != key && other in view ==> view[key := a][key := b][other] == view[other]
  {
    SetThenGet(view[key := a], key, b, php);
  }

  /**
   * The anchored key check admits a final newline, so `set("name\n", v)`
   * succeeds and stores a property that no reference can reach: the reference
   * `"name\n"` parses to the key `"name"`.
   */
  lemma SetNewlineKey(key: string)
    requires IsKey(key)
    ensures IsSettableKey(key + "\n")
    ensures Parse(key + "\n") == Some(Expr(key, Variable))
  {
    assert (key + "\n")[..|key|] == key;
    RenderParses(Expr(key, Variable));
  }
}
