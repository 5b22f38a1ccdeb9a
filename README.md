# JsonValidator (php-json-schema) in Dafny

This project models the validation engine of the PHP class `JsonValidator`
(lib/JsonValidator.php). The class checks a decoded JSON value against a JSON
Schema draft 03 document. It implements only these keywords: a single-name
`type`, `properties` with `required`, `minimum` and `maximum`, `pattern`,
`minLength` and `maxLength`, and `minItems`, `maxItems` and `uniqueItems`.
Validation walks the schema tree and the value side by side. It either
succeeds or stops at the first violation and reports it with the dotted path
of the offending value (`root.engine.cylinders`).

The model is a set of pure, recursive functions:

- `JsonValue` holds the decoded value (`Null | Bool | Int | Num | Str | Arr | Obj`).
  It also holds the PHP built-ins the validator relies on: conversion to
  boolean (`Truthy`), `isset` on an object property (`IsSet`), `strlen` as the
  UTF-8 byte length (`ByteLength`), and `array_unique` (`ArrayUnique`).
- `JsonValue.Runtime` is a record of two functions. They stand for
  `preg_match` and for the numeric-string test inside `is_numeric`. Every
  property below holds for every choice of these two functions.
- `JsonSchema` holds the schema node as a record of the attributes the
  validator reads. `DeclaredType` is the `$schema->type == '...'` dispatch.
- `Conformance.Conforms` is a declarative reference definition of "the value
  satisfies the node". It is a conjunction of every applicable constraint,
  with no order and no path.
- `JsonValidator` holds the engine: `Validate`, `ValidateType`,
  `ValidateProperties`, the seven `CheckType*` functions and the eight
  constraint checks. Each function's contract ties its outcome to
  `Conforms`, so the engine accepts exactly the conforming values. The
  contracts on the checks also state which failure is reported first.
- `ValidatorLaws` holds the properties that span several calls: fail-fast
  over properties, the required-property rule, and the parts of a value
  the walk never inspects.

The engine mutates nothing. It only reads the schema, which the constructor
sets once. So it is modelled as functions, and repeating a validation
trivially gives the same outcome.

Behaviour of the code that the model keeps, where JSON Schema draft 03 (which
lib/JsonValidator.php:9 cites) or the project's own tests
(tests/JsonValidatorTest.php) expect something else:

- A `type` that is absent, a list of names, an inline schema or an unknown
  name takes no branch of the dispatch. Such a node accepts every value with
  no further check, even when it declares `properties`. Draft 03 (section 5.1)
  allows a list of names as a union type, and `testMultiProp`
  (tests/JsonValidatorTest.php:88-96) expects one to work. `type: true`
  equals `'object'` under PHP's loose `==`, so it dispatches to the object
  check.
- A bound of `0` is falsy, so it switches its check off (`minimum: 0` accepts
  negative numbers). A `pattern` of `""` or `"0"` is ignored for the same
  reason.
- `isset` treats a property whose value is `null` as absent.
- A missing required property is reported at the parent's path, with the
  property's name carried in the violation (`MissingRequired(name)`).
- Arrays are never recursed into. Keys of an object that the schema does not
  declare are never checked, because the `additionalProperties` check is
  commented out (lib/JsonValidator.php:56-64), although
  `testInvalidAdditionalProperties` (tests/JsonValidatorTest.php:112-118)
  expects it.
- `enum`, `format`, `items`, `divisibleBy`, `disallow`, `exclusiveMinimum`
  and `exclusiveMaximum` are not implemented by the code, so they are not
  in the model. The tests for `enum` and the formats
  (tests/JsonValidatorTest.php:288-382) expect them.

## Model

| member | source | states |
|---|---|---|
| `JsonValidator.Validate` | lib/JsonValidator.php:49-67 | the value is accepted exactly when it conforms to the root schema; any failure is reported at the given entity name, or at "root" when none is given, or at a path below it |
| `JsonValidator.EntityName` | lib/JsonValidator.php:51 | a missing name, "" or "0" becomes "root"; any other name is kept |
| `JsonValidator.ValidateType` | lib/JsonValidator.php:105-124 | accepts exactly the conforming values; every failure is reported at the given path or below it; a node whose type takes none of the seven branches accepts every value |
| `JsonSchema.DeclaredType` | lib/JsonValidator.php:107-121 | the string naming one of the seven types selects exactly that type, `true` selects object, and nothing else selects a type |
| `JsonValidator.CheckTypeObject` | lib/JsonValidator.php:135-144 | a non-object fails with ExpectedObject at the current path; an object passes exactly when every declared property is satisfied |
| `JsonValidator.ValidateProperties` | lib/JsonValidator.php:78-94 | the walk from the i-th declared property passes exactly when every property from the i-th on is satisfied |
| `JsonValidator.PropertyStep` | lib/JsonValidator.php:80-91 | a set property passes exactly when its value conforms to its schema, and its failure is reported at `path.name` or below it; a missing or null property fails with MissingRequired(name) at the parent's path exactly when it is required, and passes otherwise |
| `JsonValidator.CheckTypeNumber` | lib/JsonValidator.php:155-165 | a value is_numeric rejects fails with ExpectedNumber; otherwise BelowMinimum when under the minimum, else AboveMaximum when over the maximum; passes exactly when the number is within both inclusive bounds |
| `JsonValidator.CheckTypeInteger` | lib/JsonValidator.php:176-186 | every non-int, including a whole-valued float, fails with ExpectedInteger; otherwise BelowMinimum when under the minimum, else AboveMaximum when over the maximum; passes exactly when within both bounds |
| `JsonValidator.CheckTypeBoolean` | lib/JsonValidator.php:197-204 | passes exactly for true and false, otherwise fails with ExpectedBoolean at the current path |
| `JsonValidator.CheckTypeString` | lib/JsonValidator.php:215-226 | a non-string fails with ExpectedString; otherwise pattern, then minLength, then maxLength, with the first failure reported; passes exactly when all three hold |
| `JsonValidator.CheckTypeArray` | lib/JsonValidator.php:237-248 | a non-list fails with ExpectedArray; otherwise minItems, then maxItems, then uniqueItems, with the first failure reported; passes exactly when all three hold |
| `JsonValidator.CheckTypeNull` | lib/JsonValidator.php:259-266 | passes exactly for null, otherwise fails with ExpectedNull at the current path |
| `JsonValidator.CheckMinimum` | lib/JsonValidator.php:268-275 | fails with BelowMinimum exactly when the bound is set, nonzero and greater than the value; a value equal to the bound passes |
| `JsonValidator.CheckMaximum` | lib/JsonValidator.php:277-284 | fails with AboveMaximum exactly when the bound is set, nonzero and less than the value; a value equal to the bound passes |
| `JsonValidator.CheckPattern` | lib/JsonValidator.php:286-293 | fails with PatternMismatch exactly when the pattern is truthy and preg_match does not match |
| `JsonValidator.CheckMinLength` | lib/JsonValidator.php:295-302 | fails with TooShort exactly when the bound is set, nonzero and above the byte length; equal length passes |
| `JsonValidator.CheckMaxLength` | lib/JsonValidator.php:304-311 | fails with TooLong exactly when the bound is set, nonzero and below the byte length; equal length passes |
| `JsonValidator.CheckMinItems` | lib/JsonValidator.php:313-320 | fails with TooFewItems exactly when the bound is set, nonzero and above the element count; equal count passes |
| `JsonValidator.CheckMaxItems` | lib/JsonValidator.php:322-329 | fails with TooManyItems exactly when the bound is set, nonzero and below the element count; equal count passes |
| `JsonValidator.CheckUniqueItems` | lib/JsonValidator.php:331-338 | with a truthy uniqueItems, fails with DuplicateItems exactly when some value occurs twice in the list |
| `JsonValue.ArrayUnique` | lib/JsonValidator.php:334 | array_unique keeps the same set of values, is no longer than its input and is free of repetitions |
| `JsonValue.ArrayUniqueCount` | lib/JsonValidator.php:334 | array_unique leaves the count unchanged exactly when no value occurs twice |
| `JsonValue.ByteLength` | lib/JsonValidator.php:298 | strlen of a string is at least its character count and at most four times it |
| `JsonValue.AsciiByteLength` | lib/JsonValidator.php:307 | strlen of an ASCII string is its character count |
| `JsonValue.NumberValue` | lib/JsonValidator.php:157 | ints and floats are numeric with their own value; only ints, floats and strings can be numeric |
| `ValidatorLaws.FailureFollowsPropertyChain` | lib/JsonValidator.php:80-91 | every failure is reported at `path.name1.name2...`, the path of the node whose own check failed, reached through set properties name1, name2, ... each preceded by satisfied properties |
| `ValidatorLaws.UntypedNodeAcceptsAll` | lib/JsonValidator.php:105-124 | a node whose type is absent, a list of names or an unknown name accepts every value |
| `ValidatorLaws.FirstFailingProperty` | lib/JsonValidator.php:80-91 | when the property walk fails, the reported failure is that of the first declared property that is not satisfied |
| `ValidatorLaws.MissingRequiredFails` | lib/JsonValidator.php:86-89 | a required property that is missing or null, after satisfied earlier properties, makes the object fail with MissingRequired at the object's path |
| `ValidatorLaws.UndeclaredKeyIgnored` | lib/JsonValidator.php:56-64 | adding or replacing a key the schema does not declare never changes the outcome |
| `ValidatorLaws.ArrayElementsNotValidated` | lib/JsonValidator.php:237-248 | the outcome for a list depends only on its length and whether it repeats a value, never on its elements' contents |

## Left out

- The constructor: `file_exists`, `file_get_contents` and `json_decode` are file I/O and a foreign decoder. A decode result of null is a schema error (`JsonSchemaException`). The model starts from a decoded schema.
- The regular-expression engine behind `preg_match` is a parameter (`Runtime.pregMatch`). A `preg_match` error return counts as "no match", as in the source.
- The numeric-string grammar of `is_numeric` is a parameter (`Runtime.numericString`).
- The message texts built with `sprintf` are left out. Only the violation kind and the path are kept.
- The fluent `return $this` is left out. `Validate` returns an outcome instead of returning the validator or throwing `JsonValidationException`.
- JsonValidator.CheckUniqueItems: compares values by structural equality. PHP's `array_unique` compares the string conversions, so `1`, `"1"` and `true` count as equal there and not here; every nested list converts to "Array", so `[[1],[2]]` with `uniqueItems: true` fails in PHP and passes here; and an object element cannot be converted to a string, so PHP throws an `Error` (not a `JsonValidationException`) where the model compares structurally.
- The "Array to string conversion" warning that `array_unique` raises on nested lists is not modelled.
- A non-string `pattern` such as `5` or `true` is truthy; `preg_match` rejects it as a pattern and returns false, so PHP reports a pattern mismatch. The model types `pattern` as a string and does not represent such a value.
- The warnings PHP raises when it reads a missing `type` (lib/JsonValidator.php:107) or runs `foreach` over a missing `properties` (lib/JsonValidator.php:80) are not modelled; only their outcome (no branch taken, no property checked) is.
- Floating point: numbers are mathematical integers and reals, so comparisons are exact.
- Bound attributes (`minimum` … `maxItems`) are numbers in the model. A non-numeric bound such as a string or boolean, which PHP would compare loosely, is not modelled.
- A numeric `type` of `0` compares equal to `'object'` before PHP 8. The model follows PHP 8 comparison, where it selects no type.
- A `properties` attribute given as a JSON list instead of an object is not modelled. Neither is a property schema that is not an object; the latter reads like a schema with no attributes.
- Values are JSON data only. PHP associative arrays and objects of other classes passed by a caller are not modelled.
- tests/JsonValidatorTest.php and test.php are a test harness and a demo driver. They depend on fixture files and are not modelled.
