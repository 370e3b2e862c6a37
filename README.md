# testphase, modelled in Dafny

testphase is a command line runner for HTTP API tests written as JSON files.
Each test file describes:

- a request (url, method, headers, body, and `iterators` whose values multiply the file into several tests);
- the expected response (status code, headers, rules keyed by JSON pointer, exports).

Strings in a test file can refer to *globals* through a small expression
language:

- `{{{key}}}` replaces the whole value by the global;
- `{{key}}` is substituted inline;
- `key()` / `key(p)` call a callable global;
- `key[i]` reads one element.

The runner:

1. parses every file;
2. sorts the files by their `meta.order`;
3. expands each into tests;
4. runs them, evaluating each response rule against a document made of the response header, status code, body and duration;
5. tallies successes, failures, errors, ignored and incomplete files;
6. exits with 0, 1 or 2.

This project models that core. Each module follows one source file:

| module | file | content |
|---|---|---|
| `Expression` | `expression.dfy` | the reference grammar and the recogniser of the three expression patterns (plain, whole-value replace, inline replace), with the parser proved to accept exactly the rendered references |
| `Globals` | `globals.dfy` | the globals registry as a class whose methods lazily seed the six built-ins, check keys, store and resolve references |
| `Util` | `util.dfy` | the JSON check; the readable random word (a loop over a random source given as a parameter); the cartesian product of iterator lists (a loop proved equal to a fold), with its size, soundness and completeness |
| `JsonPointer` | `pointer.dfy` | the JSON Pointer resolver of RFC 6901 that rule pointers are resolved with |
| `Rules` | `rule.dfy` | rules, body rules, status code rules and rule reports, with their pointer checks and JSON forms |
| `Testphase` | `testphase.dfy` | the base url and one test (class `Testphase`): its `expect*` methods, and `handleResponse`, which evaluates every rule against the response document |
| `TestParser` | `testparser.dfy` | the recursive template rewrite of a parsed test file, and `createTest`, which expands a file into tests by iterator combination and request body |
| `Binary` | `binary.dfy` | the comparator and the sort of test files; the statistics tally as a class and as a fold; the subdirectory filter; the exit code; the terminal colours |
| `Values`, `Strings`, `Wrappers` | `values.dfy`, `strings.dfy`, `wrappers.dfy` | PHP values with their string conversion and `empty()`; `str_replace` and `trim`; `Option` and `Result` |

## Model

| member | source | states |
|---|---|---|
| Expression.GetPrefixSuffix | src/Expression.php:74-99 | plain has no delimiters and is anchored; replace is `{{{`…`}}}` anchored; inline replace is `{{`…`}}` unanchored; any other type has neither |
| Expression.ValueAt | src/Expression.php:48-58 | a reference read at a position is well formed and is exactly the text it spans: a key of two or more key characters, then a call or index suffix when a well-formed one follows |
| Expression.CallAt | src/Expression.php:53 | a call suffix spans `(parameter?)` up to the first `)` and the parameter matches the parameter pattern |
| Expression.IndexAt | src/Expression.php:58 | an index suffix spans `[index]` up to the first `]` and the index matches `[1-9]*[0-9]` |
| Expression.MatchAt | src/Expression.php:120-129 | a match lies inside the subject and is the type's prefix, a well-formed reference and the suffix, in that order |
| Expression.FindAllFrom | src/TestParser.php:405-409 | every match `preg_match_all` collects is a well-formed reference |
| Expression.InlineMatches | src/TestParser.php:405-411 | every reference found inside `{{…}}` parses as an expression |
| Expression.RenderParses | src/Expression.php:152-185 | every well-formed reference parses back to itself, also with one trailing newline |
| Expression.ParseSound | src/Expression.php:152-185 | whatever `parse` accepts is a well-formed reference, possibly followed by a single newline |
| Expression.ParseCharacterisation | src/Expression.php:152-185 | `parse(s)` yields `e` if and only if `e` is well formed and `s` is its text, with at most one trailing newline |
| Expression.ParseBareKey | src/Expression.php:168-169 | a string parses to mode `variable` with itself as key if and only if it is a key |
| Expression.ParseCallWithoutParameter | src/Expression.php:171-177 | `key()` parses to mode `function` without parameters |
| Expression.ParseCallWithParameter | src/Expression.php:171-177 | `key(p)` parses to mode `function` with the single raw parameter `p` if and only if `p` matches the parameter pattern |
| Expression.ParseIndexed | src/Expression.php:178-182 | `key[i]` parses to mode `array` with index `i` if and only if `i` matches the index pattern |
| Expression.ParsedKeyShape | src/Expression.php:48 | every parsed key is at least two characters long and starts with a letter |
| Expression.ParseKeyExample | tests/src/ExpressionTest.php:49-55 | `key` parses to a variable named `key` |
| Expression.ParseIndexExample | tests/src/ExpressionTest.php:56-63 | `array[0]` parses to element `0` of `array` |
| Expression.ParseCallExample | tests/src/ExpressionTest.php:64-70 | `func()` parses to a call without parameters |
| Expression.ParseParameterExamples | tests/src/ExpressionTest.php:71-94 | `func(0)` and `func(abc)` parse to calls with parameter `0` and `abc` |
| Expression.ParseDoubleQuotedExample | tests/src/ExpressionTest.php:95-102 | `func("abc")` keeps the double quotes in its parameter |
| Expression.ParseSingleQuotedExample | tests/src/ExpressionTest.php:103-110 | `func('abc')` keeps the single quotes in its parameter |
| Expression.ParseRejectsBraces | tests/src/ExpressionTest.php:111-114 | `invalid{}` does not parse |
| Expression.IndexExamples | src/Expression.php:58 | `0`, `10` and `120` are indices; `01`, `100` and the empty string are not |
| Expression.SingleLetterNeverParses | src/Expression.php:48 | a one-character string never parses, since a key needs two characters |
| Expression.ReplaceOfKey | src/Expression.php:86-91 | `{{{k}}}` matches the whole-value pattern with reference `k`, which parses as a variable |
| Globals.Builtins | src/Globals.php:53-86 | the seeded registry holds exactly the six built-in names |
| Globals.BuiltinNames | src/Globals.php:58-84 | the built-ins are `rand-integer`, `rand-string`, `rand-hash`, `rand-boolean`, `timestamp` and `microtime` |
| Globals.Index | src/Globals.php:160-161 | an existing list element is returned; indexing fails only on an object |
| Globals.Arguments | src/Globals.php:149-153 | a call passes no argument without a parameter and the one raw parameter otherwise |
| Globals.DescribeAllErrPropagates | src/Globals.php:212-232 | once one global cannot be converted to a string, `toString` fails with that global's error |
| Globals.Registry.constructor | src/Globals.php:48 | before any call the registry is unseeded and shows the built-ins |
| Globals.Registry.InitializeGlobals | src/Globals.php:53-86 | the contents become exactly the built-ins, in their order |
| Globals.Registry.EnsureSeeded | src/Globals.php:95-97 | seeding on first use does not change what any operation sees |
| Globals.Registry.Exists | src/Globals.php:93-100 | `exists(k)` holds exactly when a global named `k` is stored; nothing changes |
| Globals.Registry.Get | src/Globals.php:122-167 | `get(reference)` is the lookup of the reference in the current globals, with `is_callable` and the call left to the PHP runtime given as a parameter; nothing changes |
| Globals.Registry.GetAll | src/Globals.php:122-170 | `get()` without a key returns the whole registry |
| Globals.Registry.Set | src/Globals.php:191-201 | `set` succeeds if and only if the key matches the anchored key pattern; on success the key maps to the value, is appended to the order when new, and nothing else changes; on failure nothing changes |
| Globals.Registry.ToString | src/Globals.php:208-233 | an unseeded registry prints nothing; otherwise the lines of the globals in their order, joined by newlines, or the first conversion failure; whatever the runtime's `is_callable` accepts is printed as a callable |
| Globals.DescribeCallable | src/Globals.php:213-229 | a global's line reads `(callable) callable` exactly when the runtime's `is_callable` accepts it |
| Globals.DescribeListExample | src/Globals.php:213-229 | a list that is not callable prints as `(array)` and its elements joined by `, ` |
| Globals.LookupInvalid | src/Globals.php:129-136 | a reference that does not parse is an invalid key, whatever is stored |
| Globals.LookupAbsent | src/Globals.php:138-143 | a parsable reference to an absent key is not found |
| Globals.LookupVariable | src/Globals.php:163-165 | a bare key yields the stored value itself, uncalled and unindexed |
| Globals.LookupElement | src/Globals.php:160-161 | `key[i]` on a stored list yields element `i`, or null past the end |
| Globals.LookupCall | src/Globals.php:148-158 | for any global the runtime's `is_callable` accepts, `key()` calls it with no arguments and `key(p)` with the raw text of `p`, and a throwing call fails |
| Globals.LookupNotCallable | src/Globals.php:148-158 | `key()` or `key(p)` on a global that is not callable yields null, as `call_user_func_array` does after its warning |
| Globals.SetThenGet | src/Globals.php:191-201 | after `set(k, v)`, `exists(k)` holds and `get(k)` yields `v` |
| Globals.SetOverwrites | src/Globals.php:172-201 | a second `set` of the same key overwrites the first, and every other key is untouched |
| Globals.SetNewlineKey | src/Globals.php:197 | the anchored key check also admits a key followed by one newline, and that text parses as the key |
| Util.IsJSON | src/Util.php:33-45 | the empty string is never JSON; any other string is JSON exactly when it decodes |
| Util.Pick | src/Util.php:68-73 | a random draw always indexes into its alphabet |
| Util.ReadableRandomString | src/Util.php:53-77 | the word has the requested length (none for a negative one), with a consonant at each even position of a full pair and a vowel elsewhere |
| Util.ReadableShape | src/Util.php:65-74 | the word alternates consonant and vowel, and an odd-length word ends with an extra vowel |
| Util.Seed | src/Util.php:185-188 | the first non-empty list gives one single-key combination per value, in order |
| Util.SetAll | src/Util.php:201-205 | step 1 sets the key to the first value in every existing combination |
| Util.Cartesian | src/Util.php:174-227 | the loop computes the fold of the input that skips empty lists, seeds from the first non-empty one and extends by the others |
| Util.Extend | src/Util.php:196-222 | extending by a non-empty list is step 1 on every combination followed by the appended copies of step 2 |
| Util.CopiesOf | src/Util.php:212-215 | the inner loop yields one copy of the combination per remaining value, in order |
| Util.VariantsOfSet | src/Util.php:205-215 | the copies do not depend on the value step 1 wrote under that key |
| Util.VariantsSize | src/Util.php:212-215 | one copy per remaining value |
| Util.CopiesSize | src/Util.php:201-219 | step 2 appends the number of combinations times the remaining values |
| Util.ProductOfEmptyLists | src/Util.php:180-182 | empty lists contribute a factor of one |
| Util.AnyNonEmptySnoc | src/Util.php:178-183 | a dictionary has a non-empty list when its last entry or an earlier one has |
| Util.CartesianSize | src/Util.php:174-227 | the product has as many combinations as the product of the non-empty list sizes, or none when every list is empty |
| Util.CartesianOfEmptyLists | src/Util.php:180-182 | with only empty lists the result is `[]` |
| Util.VariantsOnly | src/Util.php:212-215 | every copy is the combination with the key set to one of the remaining values |
| Util.VariantsAll | src/Util.php:212-215 | every remaining value gives a copy |
| Util.CopiesOnly | src/Util.php:201-219 | every appended combination is an existing one with the key set to a remaining value |
| Util.CopiesAll | src/Util.php:201-219 | every existing combination with the key set to any remaining value is appended |
| Util.ExtendMembers | src/Util.php:196-222 | after extending by a list, the combinations are exactly the earlier ones with the key set to each of its values |
| Util.UsedKeysSnoc | src/Util.php:178-183 | the keys in use after one more entry |
| Util.UsedKeysEmpty | src/Util.php:178-183 | no key is used exactly when every list is empty |
| Util.LastKeyFresh | src/Util.php:178 | the keys of a dictionary are distinct, so the last is not among the earlier ones |
| Util.CombinationSnoc | src/Util.php:196-222 | a combination of the extended input is a combination of the prefix plus a value of the new list |
| Util.SoundSkip | src/Util.php:180-182 | an empty list leaves the combinations as they were |
| Util.SoundSeed | src/Util.php:185-188 | seeded combinations are combinations of the input |
| Util.SoundExtend | src/Util.php:196-222 | an extended combination is a combination of the extended input |
| Util.CartesianSound | src/Util.php:174-227 | everything in the product picks one value from each non-empty list and has no other key |
| Util.CompleteSkip | src/Util.php:180-182 | a combination of an input ending in an empty list is one of the prefix |
| Util.CompleteSeed | src/Util.php:185-188 | a combination of a single non-empty list is one of the seeds |
| Util.CartesianComplete | src/Util.php:174-227 | every such pick is in the product, once some list is not empty |
| Util.CartesianMembers | src/Util.php:174-227 | a map is in the product if and only if some list is non-empty and the map picks one value from each non-empty list |
| Util.CartesianExample | src/Util.php:165-173 | two keys of two values each give four combinations |
| JsonPointer.Escape | src/Testphase.php:203-209 | an escaped name holds no `/` |
| JsonPointer.UnescapeEscape | src/Testphase.php:208-209 | unescaping an escaped name gives the name back |
| JsonPointer.SplitSlash | src/Testphase.php:208-209 | the pieces of a pointer hold no `/` |
| JsonPointer.JoinSplit | src/Testphase.php:208-209 | joining the pieces gives the pointer back |
| JsonPointer.SplitJoin | src/Testphase.php:208-209 | splitting joined slash-free pieces gives the pieces back |
| JsonPointer.Tokens | src/Testphase.php:208-209 | the empty pointer has no tokens; a pointer neither empty nor starting with `/` is invalid |
| JsonPointer.Compile | src/Testphase.php:203-209 | the pointer of a non-empty path starts with `/` |
| JsonPointer.CompileTokens | src/Testphase.php:208-209 | the tokens of a compiled pointer are the path |
| JsonPointer.Step | src/Testphase.php:208-209 | an object step takes the named member; a step succeeds only in an object or at an index of an array |
| JsonPointer.ResolveRoot | src/Testphase.php:208-209 | the empty pointer references the whole document |
| JsonPointer.ResolveMember | src/Testphase.php:208-209 | `/name` references member `name` of an object, and nothing in a scalar |
| JsonPointer.ResolveThroughScalar | src/Testphase.php:208-219 | a pointer that walks into a scalar references nothing |
| JsonPointer.DashIsNonexistent | src/Testphase.php:208-219 | the `-` token never references an array element |
| JsonPointer.WalkSnoc | src/Testphase.php:208-209 | a path resolves by its last step from where the rest led |
| Rules.FoundRoot | src/Rule/Rule.php:68-74 | the constructor's loop finds a root exactly when one of the roots is a prefix of the pointer |
| Rules.NewRule | src/Rule/Rule.php:63-86 | a rule is made if and only if its pointer starts with one of the four roots, and then keeps its arguments; otherwise the invalid pointer error is raised |
| Rules.RootsAccepted | src/Rule/Rule.php:35-40 | each root, and each extension of it, is accepted |
| Rules.PrefixTestIsTextual | src/Rule/Rule.php:68-74 | the prefix test is textual: `/headers` is accepted, `/status` and `body` are refused |
| Rules.BodyRulePointer | src/Rule/BodyRule.php:34-40 | a body rule's pointer always starts with `/body`, and one that already does is kept |
| Rules.BodyPrefixKept | src/Rule/BodyRule.php:35-39 | replacing `//` by `/` cannot touch the `/body` prefix |
| Rules.BodyRule | src/Rule/BodyRule.php:29-43 | a body rule is never refused by the parent constructor and keeps its schema and message |
| Rules.BodyRuleRelative | src/Rule/BodyRule.php:34-40 | a relative pointer without slashes goes under `/body/` |
| Rules.BodyRuleAbsolute | src/Rule/BodyRule.php:34-40 | a pointer `/q` outside the body root gets one slash between `/body` and `q` |
| Rules.BodyRuleSinglePass | src/Rule/BodyRule.php:35-39 | `str_replace` is a single pass: for `//q` a doubled slash survives |
| Rules.DoubleSlashOnce | src/Rule/BodyRule.php:35-39 | a leading `//` becomes `/`, and the scan goes on after it |
| Rules.NoDoubleSlash | src/Rule/BodyRule.php:35-39 | a text with a slash at most at its start is left as it is |
| Rules.StatusCodeRule | src/Rule/StatusCodeRule.php:30-37 | a status code rule has the `/statusCode` pointer, which the parent accepts |
| Rules.FromEnum | src/Rule/StatusCodeRule.php:39-46 | `fromEnum` gives a `/statusCode` rule whose schema enumerates exactly the given codes |
| Rules.RuleToJson | src/Rule/Rule.php:112-124 | the JSON form has the pointer and the schema, and the message exactly when it is not empty |
| Rules.NewRuleReport | src/Report/RuleReport.php:51-62 | a report gives back the rule, status and error it was made with |
| Rules.RuleReportDefault | src/Report/RuleReport.php:51-55 | without an error argument a report has none |
| Rules.RuleReportToJson | src/Report/RuleReport.php:85-97 | the JSON form has the rule and the status, and the error exactly when there is one |
| Testphase.Settings.constructor | src/Testphase.php:44 | the base is empty until it is set |
| Testphase.Settings.SetBase | src/Testphase.php:317-320 | `setBase` stores the base |
| Testphase.Settings.GetBase | src/Testphase.php:326-329 | `getBase` returns the base last set |
| Testphase.SchemeUrlHasScheme | src/Testphase.php:109 | `scheme://rest` has a scheme |
| Testphase.PathHasNoScheme | src/Testphase.php:109-113 | a path starting with `/` has no scheme, so it gets the base in front |
| Testphase.ConstructorUrlAsWritten | src/Testphase.php:108-113 | as written, a url without a scheme is prefixed by the base, and a url with one is lost |
| Testphase.AsWrittenDropsSchemeUrl | src/Testphase.php:109-110 | an `http://` url is lost as written, but kept by the intended resolution |
| Testphase.ResolveUrl | src/Testphase.php:108-113 | a url with a scheme is kept; any other is prefixed by the base |
| Testphase.RootsHeader | src/Testphase.php:197 | the document's `header` member is the response headers |
| Testphase.RootsStatusCode | src/Testphase.php:198 | the document's `statusCode` member is the status code |
| Testphase.RootsBody | src/Testphase.php:196-201 | the `body` member of the document's root object is the third value it is built from |
| Testphase.BodyResolves | src/Testphase.php:196-209 | the document's `body` member, and what a `/body` rule reads, is the decoded body when JSON is expected and the raw text otherwise |
| Testphase.RootsTimeout | src/Testphase.php:200 | the document's `timeout` member is the duration of the exchange |
| Testphase.RootsOnly | src/Testphase.php:196-201 | the document has no member besides the four roots |
| Testphase.EvaluateOutcome | src/Testphase.php:205-230 | a rule passes only when its trimmed pointer references a value that the validator accepts; a pointer that references nothing fails with a rule exception on the untrimmed pointer |
| Testphase.ResolvePlainMember | src/Testphase.php:203-209 | `/name` resolves to member `name` of the document |
| Testphase.StatusCodeResolves | src/Testphase.php:196-209 | a `/statusCode` rule reads the response's status code |
| Testphase.TimeoutResolves | src/Testphase.php:196-209 | a `/timeout` rule reads the seconds the exchange took |
| Testphase.HeaderResolves | src/Testphase.php:196-209 | a `/header` rule reads the response headers |
| Testphase.HeadersResolvesNothing | src/Testphase.php:196-209 | `/headers` references nothing in the document |
| Testphase.UnknownRootFails | src/Testphase.php:205-218 | a rule on `/headers`, which the rule constructor accepts, always fails with a rule exception |
| Testphase.TrailingSlashTrimmed | src/Testphase.php:206 | `/statusCode/` resolves like `/statusCode` |
| Testphase.NoContentAccepted | src/Testphase.php:187-194 | an empty "204 No Content" body is accepted even when JSON is expected |
| Testphase.Testphase.constructor | src/Testphase.php:101-129 | the url is resolved against the base; method, headers, body and JSON flag are kept; there are no rules yet |
| Testphase.Testphase.ExpectRule | src/Testphase.php:306-311 | the rule goes last, and nothing else changes |
| Testphase.Testphase.ExpectStatusCode | src/Testphase.php:265-276 | one `/statusCode` rule enumerating the codes is added; a single code is wrapped in a list |
| Testphase.Testphase.ExpectJSON | src/Testphase.php:284-289 | sets the JSON flag and nothing else |
| Testphase.Testphase.HandleResponse | src/Testphase.php:169-256 | refuses the body exactly when JSON is expected and the body is neither JSON nor an empty 204 answer; otherwise one report per rule, in order, each the rule's evaluation against the document; success if and only if every rule passed |
| Testphase.EvaluateRule | src/Testphase.php:206-230 | the loop body produces the rule's evaluation |
| Testphase.EvaluateRules | src/Testphase.php:203-239 | the rule loop gives one report per rule, in order, each the rule's evaluation; the status holds if and only if every rule passed |
| Testphase.OneFailureFails | src/Testphase.php:211-239 | one failing rule makes the whole test fail |
| TestParser.Collect | src/TestParser.php:388-420 | the rewrite of a container succeeds exactly when every element's does, and then holds those results in order |
| TestParser.SearchAndReplaceShape | src/TestParser.php:368-423 | the rewrite keeps the shape: lists keep their length, objects their member names in order, other values are unchanged, and each element is the rewrite of the original element |
| TestParser.SearchAndReplaceFails | src/TestParser.php:388-420 | a list's rewrite fails if and only if some element's does |
| TestParser.ScalarsUnchanged | src/TestParser.php:388-393 | null, booleans, numbers and callables are not rewritten |
| TestParser.NoMatchesFrom | src/TestParser.php:405-409 | no match can start where the delimiter does not occur |
| TestParser.TripleHasDouble | src/Expression.php:86-94 | where `{{{` occurs, so does `{{` |
| TestParser.NoTemplateUnchanged | src/TestParser.php:393-419 | a string without `{{` is left as it is |
| TestParser.WholeValueKeepsType | src/TestParser.php:396-404 | `{{{k}}}` becomes the global `k` itself, keeping its type |
| TestParser.SubstitutionNotRescanned | src/TestParser.php:396-404 | text produced by a whole-value replacement is not scanned again |
| TestParser.WholeValueMissing | src/TestParser.php:396-404 | `{{{k}}}` with no global `k` raises not found |
| TestParser.InlineOfKey | src/TestParser.php:393-411 | `{{k}}` alone is not a whole-value template and is found once, as `k` |
| TestParser.InlineOfKeyReplaced | src/TestParser.php:405-417 | a string that is only `{{k}}` becomes the string form of `k` |
| TestParser.InlineKeepsText | src/TestParser.php:405-417 | `a{{k}}b`, with no `{` in `a` or `b`, becomes `a`, the string form of `k`, then `b` |
| TestParser.InlineReplacesEach | src/TestParser.php:405-417 | `a{{k1}}m{{k2}}b` becomes `a`, the string form of `k1`, `m`, the string form of `k2`, then `b`, whether or not the keys are the same |
| TestParser.InlineOfObjectFails | src/TestParser.php:411-416 | `{{k}}` whose global is an object raises, since an object has no string form |
| TestParser.WithIterators | src/TestParser.php:253 | storing the rewritten iterators back changes only the request's `iterators` |
| TestParser.IteratorLists | src/TestParser.php:256 | the product's input has one entry per iterator, in order |
| TestParser.KeysOf | src/TestParser.php:264 | the keys of the iterators, in order |
| TestParser.RequestBodies | src/TestParser.php:271-298 | an empty body gives the single null body; a single body gives itself, encoded when it is an object; a list gives each element, encoded, in order |
| TestParser.Cases | src/TestParser.php:300-355 | one test per request body, in order |
| TestParser.Bind | src/TestParser.php:264-266 | after the combination's `set` calls, each of its keys holds its value and every other global is untouched |
| TestParser.FirstUnsettable | src/TestParser.php:264-266 | names the first key, in order, that `set` refuses, or none when all are accepted |
| TestParser.FirstUnsettableExtends | src/TestParser.php:264-266 | a refused key in a prefix of the keys stays the first refusal |
| TestParser.CasesOf | src/TestParser.php:300-355 | tests built one per request body, in order, are the tests of the file |
| TestParser.CombinationCasesOk | src/TestParser.php:262-356 | once the combination's keys are accepted and the rewrite succeeds, the combination yields the tests of the rewritten file and its export |
| TestParser.ExpansionStep | src/TestParser.php:262-356 | the tests of one more combination follow those of the earlier ones, under the globals they left |
| TestParser.ExpansionErrExtends | src/TestParser.php:262-356 | a failing combination stops the whole expansion with its error |
| TestParser.ExpansionAtLeastOne | src/TestParser.php:262-356 | every combination yields at least one test, and an export is recorded exactly when there is a combination |
| TestParser.ExpansionPrefix | src/TestParser.php:262-356 | the tests of the first combinations come first, unchanged by the later ones |
| TestParser.NoIterators | src/TestParser.php:258-260 | without iterators there is one combination binding nothing: the tests are those of the file rewritten once, and its export is recorded |
| TestParser.PlanIterators | src/TestParser.php:246-260 | the iterator step rewrites and stores the iterators, then takes the cartesian product of their lists |
| TestParser.TestParser.constructor | src/TestParser.php:110-236 | a new parser keeps the validated file and its meta, with no tests and no export |
| TestParser.TestParser.GetTest | src/TestParser.php:64-70 | an error before `createTest` made the tests, the tests afterwards |
| TestParser.TestParser.GetExport | src/TestParser.php:48-51 | the export last recorded |
| TestParser.TestParser.CreateTest | src/TestParser.php:242-359 | a failing iterator step raises its error; otherwise the iterators are stored back, and then either the expansion's error is raised with the tests unchanged, or the tests become the expansion's, the export is the last combination's and the globals hold the bindings of every combination |
| TestParser.TestParser.ExpandTests | src/TestParser.php:262-356 | the loop over combinations yields the expansion's tests or its first error |
| TestParser.TestParser.ExpandCombination | src/TestParser.php:262-356 | one combination: its globals are set, the file is rewritten, one test per body is made and the export recorded |
| TestParser.SetCombination | src/TestParser.php:264-266 | the `set` loop succeeds if and only if every key is accepted, fails on the first refused key, and on success leaves the bindings |
| TestParser.RequestBodiesOf | src/TestParser.php:271-298 | the body loop collects the request bodies |
| Binary.SortTestParser | src/Binary.php:544-551 | the comparator answers only -1 or 1, and -1 exactly when the first file's order is smaller |
| Binary.SortTestParsers | src/Binary.php:532-533 | after the sort the files are in non-decreasing order and are the same files |
| Binary.InsertLast | src/Binary.php:532-533 | one insertion pass extends the sorted prefix by one file and keeps the files |
| Binary.Swap | src/Binary.php:532-533 | an exchange keeps the same files |
| Binary.AnyMatchExists | src/Binary.php:189-196 | the patterns are OR-combined: one matching pattern is enough, and one is needed |
| Binary.MatchesAny | src/Binary.php:187-196 | the pattern loop finds a match exactly when some pattern matches the cleaned name |
| Binary.ExitCode | src/Binary.php:455-463 | 1 after an error, else 2 after a failure, else 0 |
| Binary.RunsCountsOutcomes | src/Binary.php:259-400 | success grows by the passing reports, error by the unset-global exceptions, failure by the failing reports, the other exceptions and the failed exports; the messages collected are the file's name once per exception or failed export; the other counters are unchanged |
| Binary.RunsCountsClean | src/Binary.php:259-400 | clean tests leave error and failure alone; an unclean one raises one of them |
| Binary.TallyTotals | src/Binary.php:152-253 | at the end, `tests` is the number of files plus the tests of executed files beyond one per file, `ignore` is the number of skipped files, and success plus error plus failure is the number of executed tests plus their export failures |
| Binary.FileCountsTotals | src/Binary.php:172-253 | what one file adds to the counters that the totals follow |
| Binary.FileCountsClean | src/Binary.php:172-391 | one file leaves error and failure unchanged exactly when it is skipped or all its tests are clean |
| Binary.AllCleanSnoc | src/Binary.php:172-403 | all files are clean when the earlier ones are and the last one is |
| Binary.TallyClean | src/Binary.php:172-403 | error and failure stay zero exactly when every test of every executed file passed and stored its exports |
| Binary.ExitZero | src/Binary.php:237-463 | the run exits with 0 if and only if every executed file's tests could be made and every test passed and stored its exports |
| Binary.ExitOnFailedFile | src/Binary.php:237-248 | a file whose tests cannot be made ends the whole run with exit code 1 |
| Binary.Stats.constructor | src/Binary.php:152-160 | the statistics start with one test per parsed file and every other counter at zero |
| Binary.Stats.Record | src/Binary.php:259-391 | one test's outcome updates the counters as the branches and the two `catch` blocks do |
| Binary.Stats.RecordFile | src/Binary.php:172-403 | one file is skipped, or counted and its tests recorded, or reported as not created |
| Binary.Invoke | src/Binary.php:114-464 | when every file's tests can be made, the statistics are the tally of the files; the exit code is that of the run |
| Binary.ColorCode | src/Binary.php:561-573 | the colour code is one of the five in the table, and black for an unknown name |
| Binary.ColoredText | src/Binary.php:559-580 | without colours the text is returned unchanged; with colours it is only wrapped, and reads back |

## Left out

- HTTP, files and the clock are parameters of the model.
  - The request of `run` is not sent.
  - `handleResponse` takes the response, the start and end times, the JSON check, the JSON decoder and the schema validator as arguments.
  - The runner takes each test's outcome (`TestRun`) as input.
- The schema library (`BaseValidator` and its subclasses) is a function parameter.
  - A schema is kept as the raw value it is built from.
  - `createFromJSON` and `createFromObject` are not modelled.
  - `expectObject` and `expectResponseHeader` are not modelled: their validators belong to that library.
- The JSON check: `Util.IsJSON` takes the decoder's verdict as a parameter. JSON syntax is not modelled.
- Rule values: `handleResponse` turns each referenced value into an object by encoding it and decoding it again. The model hands the value over unchanged.
- `TestParser.TestParser.constructor`: the model starts from the decoded and validated test file, and requires what the validator guarantees (`request` and its `iterators` are objects).
  - Reading the file, the JSON check and the defaults the validator fills in are not modelled.
  - An invalid file makes the runner stop with 1 before anything else (`getTestParserCollection`). The model takes the parsed files as input.
- Typed coercions: values keep the type the test file gives them.
  - `expectStatusCode`, `expectJSON` and the `Testphase` constructor receive raw values.
  - PHP's type errors on wrong argument types are not modelled.
- Iterators that are not lists. The model gives such a value no values, so the product skips it. `cartesian` (src/Util.php:174-227) treats them as follows:
  - A non-empty scalar as the first non-empty iterator seeds nothing, so the next non-empty iterator seeds the product. The model gives the same result.
  - A non-empty scalar in a later iterator: `array_shift` on a non-array gives NULL, so the key is set to NULL in every existing combination. The model leaves the key out.
  - An object iterator is iterated over its properties. As the first non-empty iterator it seeds one combination per property value, which the model does not do. In a later position, the key is set to NULL and one copy is appended per property value; that is not modelled either.
- Floating point numbers are not modelled. Neither are the random and clock built-ins, whose bodies are opaque closures.
- The PHP runtime is a parameter (`Globals.Runtime`): which values `is_callable` accepts, and what a call returns or throws. Function names, `[class, method]` arrays and the built-in closures are not modelled.
- Globals.Registry.Get: holds for any runtime, so it does not fix which values PHP takes for callables.
- Globals.Registry.ToString: holds for any runtime, so it does not fix which values print as `(callable) callable`.
- Globals.LookupCall: holds for any runtime; what a call returns is the runtime's.
- TestParser.InlineKeepsText: stated for surrounding text without `{`. Other templates in that text are replaced as well, by the same loop; that case is not stated.
- TestParser.InlineReplacesEach: stated when the first global's string form holds no `{`. When it holds `{{k2}}`, the second `str_replace` rewrites that text too; the lemma does not state that case.
- `Util.ReadableRandomString`: the random source is a parameter, and `intval` of a non-integer length is not modelled.
- `JsonPointer.Resolve` follows RFC 6901, sections 3 and 4. It stands in for the pointer library the source uses, which is not part of this model. The library also percent-decodes pointers; that is not modelled.
- `Testphase.HasScheme` approximates PHP's `parse_url` scheme detection: a scheme followed by `:`, where a port-like suffix is not taken for a scheme. Other `parse_url` quirks are not modelled.
- `expectTimeout` is not modelled: it only stores a value that nothing in the core reads.
- The runner:
  - Storing a test's exports as globals is not modelled. Whether that step fails is part of each `TestRun`, so exports are not chained between files.
  - The `errors` list records the file name of each message rather than the formatted text.
  - Printing is not modelled: progress characters, verbose lines, the 80-column wrapping, the summary, memory and time, the globals dump and the report files.
  - Option parsing, the bootstrap file and the built-in server are not modelled. `stop` returns its code unchanged.
  - `Binary.SortTestParsers` sorts with an insertion sort driven by the source's comparator. `uasort`'s own algorithm, and so the relative order of files with equal `order`, is not modelled. The comparator answers 1 for equal orders, so that order is unspecified.
- `Binary.Colored` models `colored` with the `--no-colors` flag as a parameter. `output` only prints it.
- TestParser.TestParser.CreateTest: when a later combination fails, the contract does not state the export or the globals that the earlier combinations left behind. It states only the error and that the tests are unchanged.
- `createTest` calls `expectRule` with a pointer and a raw rule value, and calls `expectResponseHeader` and `expectObject`. None of these match the `Testphase` class at src/Testphase.php:306-311, which takes one `Rule` object. The model records each test's rules as (pointer, raw value) pairs in `TestParser.TestCase`, together with its response headers and rule objects, and does not build the `Testphase` objects.
- The runner reads the response body of a status report through `getResponse()`, which is not part of this model. The export step it feeds is left out as described above.
- The `dependencies` meta field is only reported with a debug dump in the source. It is not modelled.

## Findings

| source | as written | input that shows it | evidently intended | confidence | as-written member | corrected member |
|---|---|---|---|---|---|---|
| src/Testphase.php:109-110 | a url with a scheme is replaced by the `url` property, which is not set yet, so the test loses its url | `new Testphase('http://localhost/users')` | a url with a scheme is used as given; only a url without one gets the base | high, not executed | Testphase.AsWrittenDropsSchemeUrl | Testphase.ResolveUrl |
