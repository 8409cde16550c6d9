# Dumpy value sanitizer

A Dafny model of the `dumpy` Twig filter of the Brother ErrorNotifier bundle
(`Twig/DumpyTwigFilter.php`). The filter turns a PHP value into a bounded
tree of strings and PHP arrays (for every value the model represents; see
"Left out" for the ones it does not), which is then YAML-encoded and wrapped in
`<pre>`. Its core is `sanitize`, a recursive walk with a depth budget
`maxDepth - depth`:

- primitives become type-tagged strings (`(string) …`, `(int) …`,
  `(float) …`, `(bool) true|false`, `null`);
- resources become `Resource`;
- an `InvokerException` becomes its message;
- an object out of budget becomes a one-line summary: class name, then
  ` #<id>` or ` (no id)` when `getId` takes no required argument, then
  ` <string form>` when it has `__toString`, then ` : <date>` for a `DateTime`;
- an object within budget becomes a map: `class` (a `<span>` label), then
  `iterateable` (the walker over what a Traversable yields, at the same depth)
  or `accessors` (every public `get…`/`has…`/`is…` method, invoked without
  arguments when none is required, its outcome sanitized one level deeper;
  a thrown Exception becomes the InvokerException text; methods with required
  parameters contribute their signature only);
- arrays go to `sanitizeIterateable`, which sanitizes at most 20 elements one
  level deeper and, only once the 20th element is reached, appends
  `... and N more ...`; shorter arrays get no trailer. Out of budget it
  answers `array of N` or `empty array`.

Files:

- `php_arrays.dfy` — PHP ordered arrays as sequences of key/value entries:
  `$a[$k] = $v` (`Set`) and `$a[] = $v` (`Push`, next free integer key).
- `php_values.dfy` — the value datatype (objects carry what reflection would
  report: methods with visibility, parameters and invocation outcome; the
  Traversable elements; the `getId`, `__toString` and DateTime probes),
  `getNumberOfRequiredParameters`, and PHP's integer-to-string conversion.
- `dumpy_filter.dfy` — the sanitizer as specification functions (`Sanitize`,
  `Walk`, `Fill`, `Accessors`) and as methods that follow the PHP statements
  and loops (`SanitizeValue`, `SanitizeIterable`, `CollectAccessors`,
  `BuildSignature`, `BuildClassInfo`), each proved equal to its function.
- `dumpy_properties.dfy` — the properties: tagging, depth bound, the
  container cap and trailer, summaries, object shape, accessor order and
  fault isolation, and the class comment's examples.

The code and its class comment disagree on one point of the sanitizer: the comment's
`dumpy(3)` example shows leaves `c` and `d`, but the code tags every string,
so the leaves are `(string) c` and `(string) d`. The model follows the code
(`DumpyExamples.DumpyThree`). The walker appends its trailer as soon as the
20th element is out, even when none is left over, so exactly 20 elements give
`... and 0 more ...`; the model keeps that.

## Model

| member | source | states |
|---|---|---|
| DumpyTwigFilter.Pre | Twig/DumpyTwigFilter.php:66-69 | the text sits between `<pre>` and `</pre>`, unchanged |
| DumpyTwigFilter.InlineLevel | Twig/DumpyTwigFilter.php:115-118 | the encoder's inline level for a depth is odd and exceeds twice the depth |
| DumpyTwigFilter.PreYamlDump | Twig/DumpyTwigFilter.php:82-85 | the wrapped text is the encoder's output on the depth-0 sanitization at inline level 2·depth+1 |
| DumpyTwigFilter.Signature | Twig/DumpyTwigFilter.php:179-183 | a signature starts with the method name and `(` and ends with `)` |
| DumpyTwigFilter.ClassInfo | Twig/DumpyTwigFilter.php:149-169 | the summary starts with the full class name, followed by ` #<id>` or ` (no id)` when `getId` was invoked |
| DumpyTwigFilter.SanitizeValue | Twig/DumpyTwigFilter.php:132-227 | the statement-by-statement `sanitize` returns exactly the specification `Sanitize` |
| DumpyTwigFilter.BuildClassInfo | Twig/DumpyTwigFilter.php:149-169 | appending the id, cast and date pieces to `$classInfo` step by step yields `ClassInfo` |
| DumpyTwigFilter.SanitizeIterable | Twig/DumpyTwigFilter.php:232-255 | the `foreach` with its counter and break at 20 returns exactly the specification `Walk` |
| DumpyTwigFilter.ParamList | Twig/DumpyTwigFilter.php:180-183 | the parameter list is empty exactly when there are no parameters, and otherwise starts with `$` and the first parameter's name |
| DumpyTwigFilter.BuildSignature | Twig/DumpyTwigFilter.php:179-183 | the parameter loop followed by dropping the last `", "` yields `name($a, $b)`, or `name()` |
| DumpyTwigFilter.ParamsWithCommasSplit | Twig/DumpyTwigFilter.php:180-183 | the loop's text is the comma-separated list plus a trailing `", "`, which `substr(…, 0, -2)` removes |
| DumpyTwigFilter.CollectAccessors | Twig/DumpyTwigFilter.php:176-195 | the loop over `getMethods()` builds exactly the specification `Accessors` |
| PhpArrays.Set | Twig/DumpyTwigFilter.php:240 | `$a[$k] = $v` keeps every existing key in its place, adds at most one entry, and appends `(k, v)` last when `k` was absent |
| PhpArrays.SetLookup | Twig/DumpyTwigFilter.php:240 | after `$r[$k] = $v`, `$r[$k]` is `$v` and every other key reads as before |
| PhpArrays.Push | Twig/DumpyTwigFilter.php:243 | `$r[] = $v` appends one entry under a fresh non-negative integer key and keeps keys unique |
| PhpArrays.NextFree | Twig/DumpyTwigFilter.php:192 | the key `$a[] = …` uses is above every integer key present, and 0 or one past an existing key |
| PhpValues.RequiredCount | Twig/DumpyTwigFilter.php:184 | the number of required parameters is 0 exactly when every parameter is optional (defaulted or variadic) |
| PhpValues.NatText | Twig/DumpyTwigFilter.php:207 | the decimal text of a number is all digits, and has no leading zero unless it is `0` itself |
| PhpValues.IntText | Twig/DumpyTwigFilter.php:207 | `(string) $n` is non-empty, starts with `-` exactly when `n` is negative, and is digits after that |
| PhpValues.NatTextRoundTrip | Twig/DumpyTwigFilter.php:207 | the decimal text of a natural number reads back as that number |
| PhpValues.IntTextInjective | Twig/DumpyTwigFilter.php:207 | distinct integers are printed differently |
| DumpyProperties.PrimitiveTagging | Twig/DumpyTwigFilter.php:202-226 | strings, ints, floats, null and booleans become their tagged strings at every depth |
| DumpyProperties.ResourceAndInvoker | Twig/DumpyTwigFilter.php:134-144 | a resource is `Resource` and an InvokerException its message, at every depth |
| DumpyProperties.PrimitiveTagsDistinct | Twig/DumpyTwigFilter.php:202-226 | two primitives that sanitize alike are the same value, a float being identified with its printed text |
| DumpyProperties.SanitizeHeight | Twig/DumpyTwigFilter.php:149-199 | output nesting is at most twice the budget left, and out of budget every value yields a single string |
| DumpyProperties.WalkHeight | Twig/DumpyTwigFilter.php:232-255 | the walker yields a string out of budget and nests below twice the budget within it |
| DumpyProperties.FillHeight | Twig/DumpyTwigFilter.php:239-241 | every element is sanitized one level deeper, so its nesting is bounded by the next level's budget |
| DumpyProperties.AccessorsHeight | Twig/DumpyTwigFilter.php:184-192 | every accessor value is sanitized one level deeper, so its nesting is bounded by the next level's budget |
| DumpyProperties.ExhaustedSummaries | Twig/DumpyTwigFilter.php:249-254 | out of budget an array is `array of N` when non-empty and `empty array` otherwise, and an object its summary |
| DumpyProperties.ExhaustedObject | Twig/DumpyTwigFilter.php:149-169 | out of budget an object reads `Class #42`, `Class (no id)`, `Class`, `Class <text>`, the class name with the cast note and no space, or, with every piece present, `Class #<id> <text> : <date>` |
| DumpyProperties.FillInOrder | Twig/DumpyTwigFilter.php:239-241 | on distinct keys every element is sanitized one level deeper, in input order, under its own key |
| DumpyProperties.ContainerCap | Twig/DumpyTwigFilter.php:235-248 | whatever the keys, the walker emits at most 21 entries, and from 20 elements on the last is `... and N more ...` with N = count − 20 |
| DumpyProperties.WalkInOrder | Twig/DumpyTwigFilter.php:235-248 | on distinct keys: the first 20 elements in order under their keys, then the trailer under the next free integer key from exactly 20 elements on |
| DumpyProperties.WalkLength | Twig/DumpyTwigFilter.php:239-246 | on distinct keys the walker yields min(count, 20) entries plus one trailer when count ≥ 20 |
| DumpyProperties.TrailerExamples | Twig/DumpyTwigFilter.php:242-244 | on distinct keys, 25 elements give 20 entries and `... and 5 more ...`; 20 give `... and 0 more ...` |
| DumpyProperties.ObjectWithinBudget | Twig/DumpyTwigFilter.php:171-198 | within budget an object is a two-entry map: `class` first, then `iterateable` when Traversable, else `accessors` |
| DumpyAccessors.Listed | Twig/DumpyTwigFilter.php:177-178 | exactly the public methods with an accessor name are listed (membership stated both ways); reflection order is kept by definition, as an in-order filter |
| DumpyAccessors.SignatureInjective | Twig/DumpyTwigFilter.php:179-183 | distinct method names give distinct signatures, so no accessor overwrites another |
| DumpyAccessors.AccessorsInOrder | Twig/DumpyTwigFilter.php:176-195 | one entry per listed method in order: invoked value under its signature when nothing is required, else the signature at list slot 0, 1, 2, … |
| DumpyAccessors.FaultIsolation | Twig/DumpyTwigFilter.php:185-190 | a throwing accessor yields `Couldn't invoke method: Exception "<class>" with message "<msg>"` under its signature, and no sibling entry is lost |
| DumpyAccessors.ThrownOutcome | Twig/DumpyTwigFilter.php:188-189 | a thrown Exception becomes its InvokerException text whatever the depth left |
| DumpyExamples.AccessorNamesMatched | Twig/DumpyTwigFilter.php:53 | examples: `getId`, `IsEnabled`, `HASChildren`, `issue` and `get` pass the case-insensitive prefix test |
| DumpyExamples.AccessorNamesRejected | Twig/DumpyTwigFilter.php:53 | examples: `toString`, `__get`, `g`, `hs` and `forgetIt` fail the prefix test |
| DumpyExamples.RejectedByFirstLetter | Twig/DumpyTwigFilter.php:53 | every name whose first letter is not `g`, `h` or `i` in either case is rejected |
| DumpyExamples.SignatureExamples | Twig/DumpyTwigFilter.php:179-183 | `getName()` and `getPart($from, $to)`: every parameter is shown, optional or not |
| DumpyExamples.DefaultInline | Twig/DumpyTwigFilter.php:47-51 | the default depth gives the default inline level 3 |
| DumpyExamples.DumpyZero | Twig/DumpyTwigFilter.php:29 | `dumpy(0)` of the class comment's array is `array of 1` |
| DumpyExamples.DumpyTwo | Twig/DumpyTwigFilter.php:30-32 | `dumpy(2)` gives `a: b: array of 2` |
| DumpyExamples.DumpyThree | Twig/DumpyTwigFilter.php:33-37 | `dumpy(3)` reaches the leaves, tagged `(string) c` and `(string) d` |

## Left out

- YAML encoding (`encode`, lines 95-104): Symfony's `Dumper` is not part of
  this model; `PreYamlDump` takes the encoder as a function parameter.
- `preDump` (lines 71-74): rests on `print_r`, a foreign formatter.
- `getFilters` and `getName`: Twig registration glue.
- Float formatting and `DateTime::format`: a float carries PHP's own
  rendering of itself, and a DateTime object its formatted date, as given
  text.
- Reflection itself: an object is given as the data reflection would report
  (methods in `getMethods()` order, parameters, visibility, the outcome of an
  argument-free invocation, whether the class is Traversable and what it
  yields). The `getId` probe and the string cast are given as outcomes too;
  the `getId` call is not guarded by `try` in the code and is modelled as
  always returning, with the id already rendered as text.
- `count()` on a Traversable object is taken to be the number of elements it
  yields; the code's behaviour for a Traversable that is not Countable (a
  warning or a TypeError, depending on the PHP version) is not modelled.
- The next free integer key of `$a[] = …` follows PHP before 8.3 (never below
  0 after negative keys).
- Errors that are not `Exception`s (PHP `Error`s thrown by an accessor) and
  a `ReflectionException` are not modelled; every accessor either returns or
  throws an `Exception`.
- Errors thrown by `__toString`: `catch (Exception $e)` at line 161 does not
  catch an `Error`, which would then escape `sanitize`; the model's string
  cast either returns a text or throws an `Exception` (`CastThrows`).
- Closed resources: `is_resource` is false for a closed resource (line 134),
  so the code lets it fall through every test and returns it unchanged at
  line 226, neither a string nor an array. The model has a single `Resource`
  value, always rendered as `Resource`, and no closed-resource value.
- 64-bit integer keys: `NextFree` uses unbounded integers. When key
  `PHP_INT_MAX` is among the first 20 keys of an array of 20 or more
  elements, `$r[] = …` at line 243 fails in PHP (an `Error` since 8.0, a
  warning and no trailer before); the model appends the trailer under key
  2^63.
- Traversables that misbehave: an iterator that throws inside the `foreach`
  (line 239), or that yields an array or object as key (rejected by
  `$r[$k]` at line 240), is not modelled; an object's `traversal` is a fixed
  sequence of already-normalised keys and values.
- DumpyProperties.FillInOrder: the exact entry layout is stated for distinct keys only, which every PHP array has; a Traversable may yield a key twice, and then a later element overwrites an earlier one in place (`ContainerCap` still bounds the result).
- DumpyProperties.WalkInOrder: the exact entry layout is stated for distinct keys only, which every PHP array has; a Traversable may yield a key twice, and then a later element overwrites an earlier one in place (`ContainerCap` still bounds the result).
- DumpyProperties.WalkLength: the exact length is stated for distinct keys only, which every PHP array has; a Traversable may yield a key twice, and then a later element overwrites an earlier one in place (`ContainerCap` still bounds the result).
- DumpyAccessors.AccessorsInOrder: stated for classes whose method names are distinct and contain no `(`, which PHP guarantees.
- DumpyAccessors.FaultIsolation: stated for classes whose method names are distinct and contain no `(`, which PHP guarantees.
- DumpyProperties.PrimitiveTagsDistinct: a float is identified with its printed text (`Float(text)`), so for floats the lemma only says equal texts are equal; two different PHP floats can print alike under PHP's `precision` setting (`0.1 + 0.2` and `0.3` both give `(float) 0.3`).
- DumpyTwigFilter.InlineLevel: uses unbounded integers. On 64-bit PHP, `$depth * 2 + 1` at line 117 overflows to a float once depth ≥ 2^62 or depth < −2^62, and the encoder's `int $inline` parameter then rejects it; the model returns the exact odd integer instead, so its contract describes the program only for −2^62 ≤ depth < 2^62. `PreYamlDump` inherits the same gap.
