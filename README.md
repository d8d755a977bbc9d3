# JSUtils `utils.js` in Dafny

This project models `utils.js`, a flat module of runtime validators. The
module has four parts:

- primitive type checks over arbitrary JavaScript values;
- one structured error, `InvalidArgumentError`;
- validated predicates. Each checks its argument's shape, throws that error
  when the shape is wrong, and otherwise returns a boolean;
- trial-division primality, `isPrime`.

## Layout

| file | module | models |
|---|---|---|
| `js_runtime.dfy` | `JsRuntime` | the JavaScript values and operators the module relies on: `typeof`, truthiness, numbers with ±Infinity and NaN, `%`, `<=`, `===`, `Math.floor`, and the regex classes `\s`, `\w`, `[0-9]` |
| `wrappers.dfy` | `Wrappers` | `Result`: a normal return (`Ok`) or a thrown error (`Err`) |
| `errors.dfy` | `Errors` | the `InvalidArgumentError` class |
| `type_checks.dfy` | `TypeChecks` | the primitive checks `isString` … `isUndefined` |
| `string_checks.dfy` | `StringChecks` | `isEmptyString`, `isEmail`, `isURL`, with both regexes |
| `collection_checks.dfy` | `CollectionChecks` | `isEmptyArray`, `isEmptyObject` |
| `number_checks.dfy` | `NumberChecks` | `isOdd`, `isEven`, `isPositiveNumber`, `isNegativeNumber`, `isInRange`, `isDivisibleBy` |
| `primality.dfy` | `Primality` | `isPrime`, a method with a loop |
| `usage_examples.dfy` | `UsageExamples` | the calls in the file's demonstration block, plus sample URLs, addresses and `isPrime` inputs |

A thrown error is `Err(e)` of a `Result<bool, InvalidArgumentError>`. Each
validated predicate's contract says three things:

- it fails exactly when its guard check rejects the argument;
- the error is the one the constructor builds from that predicate's own name
  and the literal expected-shape text at its throw site;
- what a normal result means.

Each primitive check's body follows the source's own test (`typeof`,
`instanceof`, truthiness, `===`). Its `ensures` then states which values it
accepts.

Each regular expression is written as the set of strings it accepts: a
split of the string into the parts its groups match. A lemma then proves
that set equal to a plain structural description:

- for `isEmail`: no whitespace, exactly one `@`, something before it, and
  after it a `.` that is neither the first nor the last character;
- for `isURL`: `ftp://`, `http://` or `https://` followed by one or more
  non-whitespace characters. The optional user-info, port and path groups
  never change the result, because the `(\S+)` host group can absorb
  whatever they would match.

`isPrime` is a method with a `while` loop. It is proved against two
definitions. One is the loop's own condition: no candidate `d >= 2` with
`d * d <= n` divides `n`. The other is the textbook definition of a prime.
A lemma proves the two agree for every `n >= 2`.

### Behaviour of the code worth noting

- `isPrime` on a value that is not an integer returns `false`. It never
  throws, unlike the other number checks.
- `isURL` does not check the host, port or path. It accepts any run of
  non-whitespace characters after the scheme, for example `http://%%%`.
- The error does not store the received value's kind as a field. The kind
  appears only inside the message.

## Model

| member | source | states |
|---|---|---|
| `Errors.NewInvalidArgumentError` | utils.js:5-14 | the name is "InvalidArgumentError"; `functionName`, `expected` and `received` are stored unchanged; the message is `<functionName>(): expected <expected>, but received <kind>` |
| `Errors.ReceivedKind` | utils.js:7 | the kind is "null" exactly for null, "object" exactly for boxed strings, arrays and objects, and always one of the eight kind names |
| `Errors.MessageDeterminedByKind` | utils.js:6-8 | two errors from the same throw site have the same message exactly when their received values have the same kind |
| `Errors.MessageReadsBack` | utils.js:8 | the message starts with the operation's name and ends, after the fixed prefix, with the received kind |
| `TypeChecks.IsString` | utils.js:20-22 | accepts exactly primitive strings and `String` objects |
| `TypeChecks.IsNumber` | utils.js:24-26 | accepts exactly the finite numbers; NaN, ±Infinity and non-numbers are refused |
| `TypeChecks.IsInteger` | utils.js:28-30 | accepts exactly the finite numbers equal to their floor |
| `TypeChecks.IsArray` | utils.js:36-38 | accepts exactly arrays; every array, the empty one included, is truthy and of type object |
| `TypeChecks.IsInfinity` | utils.js:32-34 | accepts exactly +Infinity and -Infinity |
| `TypeChecks.IsObject` | utils.js:40-42 | accepts exactly plain objects and boxed strings; null, arrays, functions and primitives are refused |
| `TypeChecks.IsAnyObject` | utils.js:44-46 | accepts exactly plain objects, boxed strings and arrays |
| `TypeChecks.IsFunction` | utils.js:48-50 | accepts exactly functions |
| `TypeChecks.IsBoolean` | utils.js:52-54 | accepts exactly `true` and `false` |
| `TypeChecks.IsNull` | utils.js:56-58 | accepts exactly null, which is the one falsy value of type object |
| `TypeChecks.IsSymbol` | utils.js:60-62 | accepts exactly symbols |
| `TypeChecks.IsUndefined` | utils.js:64-66 | accepts exactly undefined, which is the one value of type undefined |
| `TypeChecks.TypeCheckRelations` | utils.js:24-46 | isInteger implies isNumber; isNumber and isInfinity never both hold; isObject implies isAnyObject; arrays pass isAnyObject but not isObject; null passes neither; isAnyObject is isObject or isArray |
| `TypeChecks.TypeOfObjectSplit` | utils.js:36-66 | `typeof` is "object" exactly for what isAnyObject accepts plus null; isUndefined holds exactly when `typeof` is "undefined" |
| `TypeChecks.ExclusiveKinds` | utils.js:20-66 | a value passes at most one of isUndefined, isNull, isBoolean, isNumber, isInfinity, isSymbol, isFunction, isArray, isString; only boxed strings pass both isString and isObject |
| `StringChecks.IsEmptyString` | utils.js:70-75 | throws ("isEmptyString", "a string") exactly on non-strings; returns true exactly for the empty primitive or boxed string |
| `StringChecks.EmailCharacterisation` | utils.js:81-82 | the email pattern accepts a string exactly when it has no whitespace, exactly one `@`, a non-empty part before it, and after it a `.` that is neither the first nor the last character |
| `StringChecks.IsEmail` | utils.js:77-83 | throws ("isEmail", "a string") exactly on non-strings; otherwise returns true exactly for strings of the structural email shape |
| `StringChecks.UrlTailCharacterisation` | utils.js:89 | after `://`, the user-info, host, port and path groups together accept exactly the non-empty runs of non-whitespace characters |
| `StringChecks.UrlCharacterisation` | utils.js:89-90 | the URL pattern accepts exactly `ftp://`, `http://` or `https://` followed by one or more non-whitespace characters |
| `StringChecks.IsURL` | utils.js:85-91 | throws ("isURL", "a string") exactly on non-strings; otherwise returns true exactly for strings of that URL shape |
| `CollectionChecks.OwnKeyCount` | utils.js:108 | an object has no own keys exactly when it is the empty plain object or the empty boxed string |
| `CollectionChecks.IsEmptyArray` | utils.js:95-100 | throws ("isEmptyArray", "an array") exactly on non-arrays; true exactly for `[]`, false exactly for non-empty arrays |
| `CollectionChecks.IsEmptyObject` | utils.js:104-109 | throws ("isEmptyObject", "an object") exactly on non-objects (arrays, null and functions included); true exactly for `{}` and the empty boxed string |
| `CollectionChecks.ArrayIsNotAnObject` | utils.js:104-107 | `isEmptyObject` on any array throws with message "isEmptyObject(): expected an object, but received object" |
| `CollectionChecks.NullIsNeitherObjectNorArray` | utils.js:95-107 | on null, both `isEmptyObject` and `isEmptyArray` throw, with messages "isEmptyObject(): expected an object, but received null" and "isEmptyArray(): expected an array, but received null" |
| `JsRuntime.JsRem` | utils.js:152 | `%` on a finite dividend and a finite non-zero divisor is zero exactly when the quotient is whole; an infinite divisor returns the dividend; a zero or NaN divisor, or a non-finite dividend, gives NaN |
| `NumberChecks.WholeQuotientIffDivides` | utils.js:152 | for integers, a whole real quotient is the same as a zero integer remainder |
| `NumberChecks.IsOdd` | utils.js:113-118 | throws ("isOdd", "a finite number") exactly on non-finite-numbers; otherwise true exactly when the value is not a whole multiple of two |
| `NumberChecks.IsEven` | utils.js:120-125 | throws ("isEven", "a finite number") exactly on non-finite-numbers; otherwise true exactly when the value is a whole multiple of two |
| `NumberChecks.OddIsNotEven` | utils.js:113-125 | isOdd and isEven throw on the same inputs, and otherwise `isOdd(n) == !isEven(n)` |
| `NumberChecks.EvenOnIntegers` | utils.js:113-125 | on an integer k, isEven returns `k % 2 == 0` and isOdd returns `k % 2 != 0` |
| `NumberChecks.IsPositiveNumber` | utils.js:127-132 | throws ("isPositiveNumber", "a finite number") exactly on non-finite-numbers; otherwise true exactly when the value is above zero |
| `NumberChecks.IsNegativeNumber` | utils.js:134-139 | throws ("isNegativeNumber", "a finite number") exactly on non-finite-numbers; otherwise true exactly when the value is below zero |
| `NumberChecks.SignTrichotomy` | utils.js:127-139 | a finite number is never both positive and negative, and is neither exactly when it is zero |
| `NumberChecks.IsInRange` | utils.js:141-146 | throws ("isInRange", "a finite number") exactly when the value is not a finite number, whatever the bounds; with finite bounds, true exactly when `min <= value <= max`; in general, true exactly when the lower bound is -Infinity or a finite number at most the value and the upper bound is +Infinity or a finite number at least the value, so a +Infinity lower bound, a -Infinity upper bound or a NaN bound gives false |
| `NumberChecks.InRangeDegenerateBounds` | utils.js:141-146 | with `max < min`, or a NaN bound, the result is false; with bounds -Infinity and +Infinity it is true |
| `NumberChecks.IsDivisibleBy` | utils.js:148-153 | throws ("isDivisibleBy", "a finite number") exactly when the value is not a finite number, whatever the divisor; otherwise true exactly when the quotient by a finite non-zero divisor is whole, or when the divisor is infinite and the value is zero |
| `NumberChecks.DivisibleOnIntegers` | utils.js:148-153 | for integers with a non-zero divisor d, the result is `k % d == 0` |
| `Primality.RootBoundSuffices` | utils.js:159-163 | for n >= 2, no divisor d >= 2 with d·d <= n exactly when n is prime |
| `Primality.CoDivisor` | utils.js:159 | a divisor above the square root has a co-divisor at or below it |
| `Primality.IsPrime` | utils.js:155-165 | true exactly for integers >= 2 with no divisor d >= 2 with d·d <= n; equivalently, exactly for primes; every other input, non-integers included, gives false and never an error |
| `UsageExamples.BooleanExamples` | utils.js:168 | `isBoolean(1)` is false and `isBoolean(true)` is true |
| `UsageExamples.ParityExamples` | utils.js:169-170 | isOdd on 1..4 is true, false, true, false; isEven on 1..4 is false, true, false, true |
| `UsageExamples.EmptyArrayExamples` | utils.js:176-177 | `isEmptyArray([])` is true and `isEmptyArray([1, 2, 3])` is false |
| `UsageExamples.EmptyArrayRejectsString` | utils.js:179-183 | `isEmptyArray('string')` throws; the error's name, functionName `isEmptyArray`, expected `an array` and received value are as given, and its message is "isEmptyArray(): expected an array, but received string" |
| `UsageExamples.UrlAcceptsHttps` | utils.js:85-91 | `isURL('https://example.com')` is true |
| `UsageExamples.UrlAcceptsFtp` | utils.js:85-91 | `isURL('ftp://files.example.com/file.txt')` is true |
| `UsageExamples.UrlRejectsPlainWord` | utils.js:85-91 | `isURL('not-a-url')` is false |
| `UsageExamples.UrlRejectsEmptyOrBlankHost` | utils.js:89 | `http://` with nothing after it, and a host containing a space, are rejected |
| `UsageExamples.EmailAcceptsAddress` | utils.js:77-83 | "user@example.com" is an email, as a primitive and as a boxed string |
| `UsageExamples.EmailNeedsDot` | utils.js:81-82 | "user@example" is not an email |
| `UsageExamples.EmailRejectsBlank` | utils.js:81-82 | a string containing a space is not an email |
| `UsageExamples.EmailRejectsSecondAt` | utils.js:81-82 | "a@b@c.d" is not an email |
| `UsageExamples.PrimeExamples` | utils.js:155-165 | `isPrime` returns true on 2, 3 and 7, and false on 1, 9, -5, 2.5 and the string "7" |

## Left out

- Numbers are mathematical reals plus ±Infinity and NaN. IEEE-754 rounding, the 2^53 integer limit and negative zero are not modelled.
- `Math.sqrt` in the `isPrime` loop bound is replaced by the exact test `i * i <= value`. For integer values the two agree mathematically; floating-point error in `Math.sqrt` is not modelled.
- Strings are sequences of Unicode scalar values, whereas JavaScript strings are sequences of UTF-16 code units. A lone surrogate cannot be represented, and the length of a string with characters outside the Basic Multilingual Plane differs. No modelled result changes, because the checks test only for zero length and for the class of each character.
- The regular-expression engine is not modelled. Each pattern is written as the set of strings it accepts, group by group; backtracking and match positions are not represented.
- TypeChecks.IsObject: the source returns the falsy operand itself, for example `0`, `''` or `null`, instead of `false`. The model returns a boolean with the same truth value.
- TypeChecks.IsAnyObject: likewise returns a boolean where the source can return a falsy operand.
- NumberChecks.IsInRange: the bounds are numbers. How JavaScript coerces other values given as bounds, such as strings or objects, is not modelled.
- NumberChecks.IsDivisibleBy: the divisor is a number. How JavaScript coerces a divisor of another type is not modelled.
- The value universe has no `bigint` and no boxed numbers or booleans. Dates, regular expressions and other objects are represented only by their own enumerable string keys, because that is all `isObject` and `Object.keys` observe. Symbol-keyed and non-enumerable properties are not modelled. A boxed string is only its text, so one that carries extra own enumerable properties cannot be represented: `isEmptyObject(Object.assign(new String(''), {a: 1}))` is false in JavaScript.
- `InvalidArgumentError`'s inheritance from `TypeError` is not modelled, nor its stack trace. The model keeps the `name` field, the three stored fields and the message.
- The demonstration block writes to the console. Only the values of its calls are modelled, as lemmas, not the printing.
- Truncate, slugify, the array chunk/unique/flatten/set helpers, pick/omit/merge, clamp, deep clone, debounce, throttle and deferred call are not defined in `utils.js`, so they are not part of this model.
