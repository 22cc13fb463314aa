# lier, modelled in Dafny

lier is a schema language for JavaScript data. A schema is a tree of plain
objects, arrays, regular expressions, literal values and *combinator
functions* (`int`, `str`, `tuple`, `oneOf`, `definition`, `range`, …).
Three engines act on a schema:

- **validate** walks a datum and a schema together. It collects a list of
  `LierError` records, each a path and a message. It returns `null` when the
  datum fits.
- **mock** walks a schema and builds a random datum. It lets self-referential
  schemas close on themselves, within a cycle budget. It then validates what it
  built.
- **the compiler** turns the parsed AST of lier's own text syntax into the
  schema tree (`ast-lier.ts`). A lighter pass, `check.ts`, routes the same AST
  to find undeclared names.

This project models these engines as pure Dafny functions over immutable
data:

- **JavaScript values** are a `Value` datatype. Arrays and objects live in a
  `Heap` of cells, so object identity and cycles are modelled.
- **Schemas** are a `Ty` datatype. Object identity of a schema node is an `Id`.
- **Random choices** come from an `Oracle` parameter, indexed by a draw
  counter.
- **Regular expression matching** comes from a `RegexEngine` parameter.
- **The JavaScript call stack** is a `fuel` bound. Running out of it is the
  failure `StackExhausted`.
- **Exceptions** are `Fail(Thrown(message))`. The messages are the source's own, with numbers printed as
  `String` prints them: plain digits below 10^21 in size, exponent notation from there on.

Modules follow the source files:

| module | file | what it holds |
|---|---|---|
| `Values`, `Outcomes`, `Ast` | — | data, `Result`, and the AST |
| `Utils` | `utils.ts` | key kinds, `isInteger`, `merge` |
| `Interfaces` | `interfaces.ts` | `Root`, `LierError`, control keys |
| `Types` | `types.ts` | the combinator table and path helpers |
| `Equality` | — | lodash `isEqual` |
| `Expressions` | — | deferred `self` expressions |
| `Validation`, `ValidationProps` | `validate.ts` and the validate half of each combinator | |
| `Mocking`, `MockProps` | `mock.ts` and the mock half of each combinator | |
| `Operators` | — | the JavaScript operators the compiler folds: `ToNumber`, `ToInt32`, `==` |
| `CompileTime` | — | `_.get`/`_.set`/`_.has` on compiled schemas, constant folding |
| `GrammarUtils` | `grammar/utils.ts` | |
| `Lowering`, `LoweringProps` | `grammar/transform/ast-lier.ts` | |
| `Checking`, `CheckingProps` | `grammar/check.ts` | |

## Model

| member | source | states |
|---|---|---|
| Utils.UnescapeControlKey | src/utils.ts:27-37 | `$$k` and `//k` lose their first character; every other key is returned unchanged |
| Utils.EscapeControlKey | src/utils.ts:15-37 | doubling the `$` of a control key gives a plain key that unescapes back to the control key |
| Utils.EscapePatternKey | src/utils.ts:19-37 | doubling the `/` of a pattern key gives a plain key that unescapes back to the pattern key |
| Utils.UnescapeKeepsClassifiedKeys | src/utils.ts:15-37 | control keys and pattern keys are never altered by unescaping |
| Utils.MatchKeyPattern | src/utils.ts:5-25 | a match splits the key into `/body/flags`, with a non-empty body not starting with `/` and flags drawn from `igmuy` |
| Utils.MatchKeyPatternRoundTrip | src/utils.ts:5-25 | every such body and flag string is matched back exactly |
| Utils.MatchedKeysArePatternKeys | src/utils.ts:5-25 | every key the pattern regex matches is also a pattern key |
| Utils.IsIntegerCases | src/utils.ts:79-89 | numbers count as integers; digit strings count only when outside the safe-integer range; booleans, null, undefined, regexps, plain objects and arrays of any length but one never do; a one-element array counts exactly when its element's text does, null and undefined reading as `""` |
| Utils.LargeDecimalIsInteger | src/utils.ts:79-89 | the decimal text of any integer above `MAX_SAFE_INTEGER` reads back to that integer and counts as an integer |
| Utils.Merge | src/utils.ts:95-107 | non-objects are left alone; merging never frees heap cells and keeps fresh addresses fresh |
| Utils.MergeFlat | src/utils.ts:95-107 | merging a flat source into another object overwrites exactly the source's keys with the source's values; nothing else changes and nothing is allocated |
| Utils.MergeNestedIntoFresh | src/utils.ts:98-101 | an object-valued source property whose target property is falsy makes the target's property a fresh object, allocated at the next address, that ends up with exactly the inner object's properties; the target's other properties are unchanged |
| Values.ExponentTextValue | src/types.ts:30-32 | from 10^21 on, `String(Big(v))` is a mantissa with no trailing zeros and an exponent that together give back the number |
| Values.DigitPowerText | src/types.ts:30-32 | a digit times 10^j, for j >= 21, prints as the digit, `e+` and j, with a `-` when negative; so 10^21 prints as `1e+21` |
| Interfaces.NewRoot | src/interfaces.ts:46-60 | a new root holds the datum, schema and declarations, with no errors, nothing visited and validation mode on |
| Interfaces.ControlKeysAreControl | src/interfaces.ts:76-80 | the three control keys are `$rest`, `$definitions` and `$export`; each is a control key and none is a pattern key |
| GrammarUtils.IsInteger32 | src/grammar/utils.ts:12-15 | a value is a 32-bit integer exactly when `+value` is an integer in [-2^31, 2^31-1]; NaN is not one |
| GrammarUtils.IsInteger32Exactly | src/grammar/utils.ts:12-24 | an integer, given as a number or as its decimal text, is accepted exactly when it is within the 32-bit bounds |
| GrammarUtils.DecimalReadsBack | src/grammar/utils.ts:12-15 | the unary `+` of an integer's decimal text is that integer |
| GrammarUtils.IdentifiersArePlainKeys | src/grammar/utils.ts:9-11 | an identifier is never a control key or a pattern key, and unescapes to itself |
| GrammarUtils.MakeKey | src/grammar/utils.ts:25-56 | (corrected) a key becomes a number node only if it is a 32-bit integer; a regex node only if it spells `/source/flags` and compiles; an identifier node only if it is an identifier; otherwise a string node |
| GrammarUtils.MakeKeyAsWritten | src/grammar/utils.ts:32-38 | the regex node of the code as written has the whole key as its source |
| GrammarUtils.MakeKeyRegexRoundTrip | src/grammar/utils.ts:32-45 | (corrected) a regex key spells, as an object key, the key it was made from |
| GrammarUtils.MakeKeySwapsPatternAndFlags | src/grammar/utils.ts:32-38 | on `/g/` the code as written builds a regex with source `/g/` and flags `g`; the corrected version builds source `g` and no flags |
| GrammarUtils.MakeKeyMissesSingleFlags | src/grammar/utils.ts:32-33 | on `/a/i` the code as written yields a string node, because `(img)*` only admits repeats of `img`; the corrected version yields a regex |
| GrammarUtils.SpreadMember | src/grammar/utils.ts:57-65 | a node that is not a chain of `op` spreads to itself; the result never holds a chain of `op` |
| GrammarUtils.SpreadChain | src/grammar/utils.ts:57-65 | spreading a left-nested chain of `op` over operands gives back exactly those operands |
| GrammarUtils.SpreadIgnoresGrouping | src/grammar/utils.ts:57-65 | `(a op b) op c` and `a op (b op c)` spread to the same operand list |
| GrammarUtils.Precedence | src/grammar/utils.ts:72-94 | every precedence lies in 5..14 |
| GrammarUtils.PrecedenceCoversOperators | src/grammar/utils.ts:72-94 | an operator has a precedence exactly when it is one of the binary operators the evaluator implements |
| GrammarUtils.PrecedenceOrderArithmetic | src/grammar/utils.ts:72-94 | multiplicative binds tighter than additive, then shift, then relational, then equality |
| GrammarUtils.PrecedenceOrderLogic | src/grammar/utils.ts:72-94 | equality binds tighter than `&`, then `^`, `\|`, `&&` and `\|\|` |
| GrammarUtils.PrecedenceGroups | src/grammar/utils.ts:72-94 | operators of one group share one precedence, and the numeric values match the table |
| Types.FactoryNamed | src/types.ts:434-489 | a factory is found only under its own exported name, or under `_` for `description` |
| Types.FactoryNamesRoundTrip | src/types.ts:434-489 | every factory is found again under the name it is exported as |
| Types.IntBoundsOfTable | src/types.ts:16-63 | the bounds of `int8` to `int64` and `uint8` to `uint64`, written out |
| Types.RangeBounds | src/types.ts:392-404 | two arguments are the bounds; one argument is a bound paired with 0, in order; any other count throws |
| Types.GetError | src/types.ts:426-432 | succeeds exactly when the path leads to a defined value, returning it, and throws `this path is not found` otherwise |
| Types.GetPathThroughShapes | src/types.ts:426-432 | one step of a path into an object reads the key, and an undefined value at the end counts as missing |
| Operators.ToInt32 | src/grammar/check.ts:92-122 | the result is in [-2^31, 2^31) and congruent to the input modulo 2^32 |
| Operators.ToUint32 | src/grammar/check.ts:120-122 | the result is in [0, 2^32) and congruent to the input modulo 2^32 |
| Operators.TruncRem | src/grammar/check.ts:108-110 | JavaScript `%`: the remainder takes the sign of the dividend and is smaller than the divisor in size |
| Operators.PlusConcatenates | src/grammar/check.ts:124-126 | `+` on strings concatenates, and a number on either side of a string is written as `String` writes it: plain digits below 10^21, exponent notation from there on |
| Operators.RelationalOnIntegers | src/grammar/check.ts:132-146 | `<`, `>`, `<=` and `>=` on numbers compare them |
| Operators.LooseNullish | src/grammar/check.ts:156-162 | `null == x` and `x == undefined` hold exactly when `x` is null or undefined |
| Operators.Binary | src/grammar/check.ts:87-177 | operators on primitives give primitives; the value of each operator is stated by the rows below |
| Operators.Unary | src/grammar/check.ts:55-66 | unary operators give primitives; their values are stated by `Operators.UnaryOnIntegers` |
| Operators.ArithmeticOnIntegers | src/grammar/check.ts:100-130 | `+`, `-` and `*` on two numbers are the integer sum, difference and product |
| Operators.DivisionOnIntegers | src/grammar/check.ts:104-106 | `/` of an exact multiple is the quotient; a zero divisor leaves the integers; any integer result times the divisor is the dividend |
| Operators.RemainderOnIntegers | src/grammar/check.ts:108-110 | `%` satisfies dividend = divisor * (quotient rounded toward zero) + remainder, with the remainder smaller than the divisor and of the dividend's sign |
| Operators.SignedShiftRight | src/grammar/check.ts:116-118 | `>>` is the signed 32-bit reading of the left operand divided by 2^(right mod 32), rounded down |
| Operators.UnsignedShiftRight | src/grammar/check.ts:120-122 | `>>>` is the unsigned 32-bit reading divided by 2^(right mod 32), rounded down, and never negative |
| Operators.ShiftLeft | src/grammar/check.ts:112-114 | `<<` is a signed 32-bit integer congruent, modulo 2^32, to the signed reading times 2^(right mod 32) |
| Operators.BitwiseAnd | src/grammar/check.ts:96-98 | `&` is a signed 32-bit integer whose bit pattern is the and of the operands' 32-bit patterns |
| Operators.BitwiseOr | src/grammar/check.ts:92-94 | `\|` is a signed 32-bit integer whose bit pattern is the or of the operands' patterns |
| Operators.BitwiseXor | src/grammar/check.ts:164-166 | `^` is a signed 32-bit integer whose bit pattern is the exclusive or of the operands' patterns |
| Operators.StrictEqualityOnValues | src/grammar/check.ts:148-154 | `===` holds exactly for identical values, so a number never equals a string; `!==` is its negation |
| Operators.StrictImpliesLoose | src/grammar/check.ts:148-158 | on primitives, whatever `===` equates `==` equates too |
| Operators.UnaryOnIntegers | src/grammar/check.ts:58-66 | unary `-` negates, `+` reads booleans as 0 and 1 and null as 0, and `~x` is `-ToInt32(x) - 1`, so `~~x` is the 32-bit reading of `x` |
| Equality.DeepEqualData | src/validate.ts:26-30 | equal values are deep-equal, and a primitive equals only itself |
| Equality.ItemsEqualPrimitives | src/types.ts:139-147 | element-wise comparison of primitives is sequence equality |
| Expressions.Eval | src/grammar/transform/ast-lier.ts:129-335 | the root expression reads the datum being validated; constants read themselves |
| Expressions.EvalPath | src/grammar/transform/ast-lier.ts:110-118 | a `self.a.b` expression reads the path `a.b` from the root datum |
| Expressions.AndShortCircuits | src/grammar/transform/ast-lier.ts:314-322 | `l && r` with a falsy `l` is `l`, whatever `r` is |
| CompileTime.ReadProperty | src/grammar/transform/ast-lier.ts:119-125 | reading a key of undefined or null throws the JavaScript TypeError; reading a key of an object gives its entry or undefined |
| CompileTime.ComputeOnIntegers | src/grammar/transform/ast-lier.ts:144-334 | folding two integer constants gives the sum, difference, product, comparison and strict equality of the integers; `&&` keeps a zero left operand and `\|\|` a non-zero one, otherwise the right operand |
| CompileTime.ComputeOnStrings | src/grammar/transform/ast-lier.ts:204-212 | folding `+` on two string constants concatenates them; a compiled type as an operand is not folded |
| CompileTime.ComputeUnary | src/grammar/transform/ast-lier.ts:92-103 | `!` of a constant is its falsiness; an operator outside `! ~ + -` gives undefined |
| CompileTime.ComputeUnaryOnIntegers | src/grammar/transform/ast-lier.ts:92-103 | on an integer constant, `-` negates, `~x` is `-ToInt32(x) - 1` and `!x` holds exactly when `x` is 0 |
| CompileTime.SetPath | src/grammar/transform/ast-lier.ts:455-457 | `_.set` keeps the object's identity; setting at the empty path, or into a primitive, changes nothing |
| CompileTime.SetThenGet | src/grammar/transform/ast-lier.ts:455-457 | after `_.set(d, path, v)`, `_.get(d, path)` is `v` (undefined when `v` is) |
| CompileTime.HasPath | src/grammar/check.ts:296-300 | `_.has` of the empty path, or of any path into undefined or null, is false |
| CompileTime.SetThenHas | src/grammar/check.ts:293-300 | after `_.set(d, path, v)`, `_.has(d, path)` holds |
| CompileTime.JoinedTexts | src/grammar/check.ts:83-84 | the steps of a path as `join` and `String` of an array print them: the text each step is looked up by, except that null and undefined print as empty text; defined for exactly the steps whose text is known |
| Values.IndexOfNatToString | src/validate.ts:36-38 | the key `i + ''` of an array element reads back as index `i` |
| Validation.ValidateRegex | src/validate.ts:14-24 | a string or number passes exactly when the regex tests true on its text; otherwise exactly one error is recorded at the path |
| Validation.ValidateExplicitValue | src/validate.ts:26-30 | a literal schema passes exactly when the datum deep-equals it; otherwise exactly one error is recorded |
| Validation.ValidateArray | src/validate.ts:32-43 | a non-array gets one `is not` error; an empty array schema accepts any array; a schema with several element types throws |
| Validation.ValidateObject | src/validate.ts:45-91 | an `$export` key hands the datum to its type; a datum that is not object-like gets one error; the keys are stated by the `ValidationProps` object rows |
| Validation.ObjectLoop | src/validate.ts:52-80 | the key loop keeps the root outside the path, only adds matched keys, and leaves the `$rest` type alone when no `$rest` key remains |
| Validation.PatternLoop | src/validate.ts:62-74 | the matched keys grow by exactly the datum keys the pattern tests true on; the `$rest` type is untouched |
| Validation.RestLoop | src/validate.ts:82-87 | when every key was matched, the `$rest` type checks nothing |
| Validation.Walk | src/validate.ts:93-124 | a walk only appends errors that lie under its path, and leaves the rest of the root as it was (with the corrected `oneOf`) |
| Validation.Push | src/validate.ts:96-100 | a combinator's message becomes exactly one new error at the current path |
| Validation.IntMessage | src/types.ts:16-39 | a datum `isInteger` rejects gets `is not an integer`, heap data included; a number passes exactly when it is within the bounds, and otherwise is reported out of range, printed as `String(Big(v))` prints it |
| Validation.FloatMessage | src/types.ts:65-83 | with integer-only numbers, a datum passes `float` exactly when it is a number within the safe-integer range |
| Validation.RangeMeasure | src/types.ts:409-420 | a range measures a number by its value and a string or array by its length; nothing else has a measure |
| Validation.ResolveRef | src/types.ts:308-325 | `ref()` is the whole schema; `ref(path)` is the type found at that path, or the path-not-found error |
| Validation.OneOfErrors | src/types.ts:237-244 | (corrected) the caller's errors are kept; one record is added exactly when the match count is not 1 |
| Validation.OneOfErrorsAsWritten | src/types.ts:225-244 | as written, a count other than 1 leaves only the last attempt's errors plus the record |
| Validation.OneOfLoop | src/types.ts:226-235 | the count grows by at most one per remaining type |
| Validation.SelfMessage | src/types.ts:327-336 | a datum equal to the `self` expression's value passes; an evaluation failure propagates |
| Validation.Validate | src/validate.ts:126-132 | the result is `null` exactly when the walk from a fresh root records no error, and otherwise is that walk's error list, which is never empty; it succeeds exactly when the walk does |
| ValidationProps.IntAcceptsExactlyItsRange | src/types.ts:16-39 | `intN` accepts a number exactly when it lies in [-2^(N-1), 2^(N-1)-1]; otherwise it records the out-of-range message |
| ValidationProps.UIntAcceptsExactlyItsRange | src/types.ts:41-63 | `uintN` accepts a number exactly when it lies in [0, 2^N-1] |
| ValidationProps.IntOnDigitStrings | src/types.ts:16-39 | a digit string within the safe range is `not an integer`; beyond it, the string is judged by its value |
| ValidationProps.IntOnOneElementArrays | src/types.ts:16-39 | a one-element array holding a digit string is read as that string by `isInteger` and Big.js: within the safe range it is `not an integer`, beyond it the value decides, and an out-of-range value is printed as `String` prints it |
| ValidationProps.BoolAndStrKinds | src/types.ts:8-14 | `bool` passes exactly booleans, and `str` exactly strings |
| ValidationProps.NilPassesOnlyUndefined | src/types.ts:295-300 | `nil` passes exactly `undefined` |
| ValidationProps.AnyAndNever | src/types.ts:269-306 | `any` passes everything; `never` records `property should be void` |
| ValidationProps.EqAndEnum | src/types.ts:139-162 | `eq(v)` passes exactly values deep-equal to `v`; `enum(vs)` passes exactly values deep-equal to one of `vs` |
| ValidationProps.OptionalIsUndefinedOrInner | src/types.ts:164-173 | `optional(t)` passes `undefined` and otherwise behaves exactly as `t` |
| ValidationProps.RangeChecksThenDelegates | src/types.ts:405-422 | `range` reports data with no measure, and data out of bounds; it delegates to the inner type exactly when the measure is within bounds |
| ValidationProps.RefToItselfThrows | src/types.ts:308-325 | a `ref` that resolves to itself throws `ref should not ref itself` |
| ValidationProps.MissingDefinitionIsAnError | src/types.ts:338-355 | a missing or falsy declaration records `not implemented type:` and the path as a string concatenation prints it |
| ValidationProps.AnyOfLoopAccepted | src/types.ts:248-267 | once some remaining type accepts, the loop restores the caller's errors untouched |
| ValidationProps.AnyOfLoopRejected | src/types.ts:248-267 | when no remaining type accepts, the errors stay unchanged only if there was nothing left to try |
| ValidationProps.AnyOfPassesIffSomeMemberAccepts | src/types.ts:248-267 | `anyOf(ts)` passes exactly when `ts` is empty or some member accepts the datum |
| ValidationProps.AnyOfRejectionKeepsEveryAttempt | src/types.ts:248-267 | on rejection, the errors of every attempt are appended, in order, after the caller's errors |
| ValidationProps.OneOfLoopCounts | src/types.ts:220-246 | the loop's count is the number of types that accept the datum |
| ValidationProps.OneOfPassesIffExactlyOneAccepts | src/types.ts:220-246 | (corrected) `oneOf(ts)` passes exactly when exactly one member accepts; otherwise one record is added after the caller's errors |
| ValidationProps.OneOfAsWrittenDropsEarlierErrors | src/types.ts:225-244 | `oneOf(bool, bool)` on `true`, with an earlier error, loses that error as written but keeps it when corrected |
| ValidationProps.NotPassesIffMemberRejects | src/types.ts:276-293 | `not(t)` passes exactly when `t` rejects the datum, and records the `not` message otherwise |
| ValidationProps.MatchLoopFirstCase | src/types.ts:357-377 | the case loop validates against the body of the first case whose condition accepts, or reports that no case matched |
| ValidationProps.MatchTakesFirstAcceptingCase | src/types.ts:357-377 | `match(e, cases)` evaluates `e` and then behaves as the first case whose condition accepts its value |
| ValidationProps.AllOfLoopPasses | src/types.ts:209-218 | the loop from member `i` on passes exactly when every remaining member passes on its own |
| ValidationProps.AllOfPassesIffEveryMemberPasses | src/types.ts:209-218 | `allOf(ts)` passes exactly when every member passes |
| ValidationProps.RestItemsPass | src/types.ts:117-137 | the loop from element `j` on passes exactly when every remaining element passes the inner type |
| ValidationProps.RestPassesIffEveryElementPasses | src/types.ts:117-137 | `rest(t)` reports a non-array, and passes an array exactly when every element passes `t` |
| ValidationProps.TupleItemsPass | src/types.ts:93-115 | the loop from item `i` on passes exactly when each remaining item passes its element, or `undefined` past the end |
| ValidationProps.TuplePassesIffEveryItemPasses | src/types.ts:93-115 | `tuple(items)` reports a non-array, and passes an array exactly when item `i` passes element `i` for every `i` |
| ValidationProps.SelfComparesWithExpression | src/types.ts:327-336 | `self(e)` passes exactly when the datum equals the value of `e` on the root datum |
| ValidationProps.SelfAcceptsItsOwnValue | src/types.ts:327-336 | the value of `e` passes `self(e)` |
| ValidationProps.VisitedPairIsSkipped | src/validate.ts:101-117 | a datum and object schema already being validated together pass at once; this is what ends cycles |
| ValidationProps.ExportDelegates | src/validate.ts:46-47 | an `$export` key validates the datum against its type at path `$export`, and nothing else |
| ValidationProps.VoidThrowsAndMessagesAreRecorded | src/validate.ts:96-120 | an undefined schema throws `type must not be void`; a combinator's message is recorded at the path |
| ValidationProps.ArrayItemsPass | src/validate.ts:35-38 | when every element passes at path `i`, the array passes |
| ValidationProps.ArrayItemsKeepFirstFailure | src/validate.ts:35-38 | the errors of the first failing element are kept in the result |
| ValidationProps.PlainKeyIsWalked | src/validate.ts:75-79 | a plain key is validated at its unescaped name, and its result is the result of the whole object |
| ValidationProps.PatternLoopPasses | src/validate.ts:69-74 | the pattern loop passes exactly when every datum key the pattern tests true on passes the pattern's type at `path + [key]` |
| ValidationProps.RestLoopPasses | src/validate.ts:82-87 | the `$rest` loop passes exactly when every datum key outside the matched ones passes the rest type at `path + [key]` |
| ValidationProps.PatternKeyWalksMatches | src/validate.ts:62-74 | an object type with one pattern key throws for a malformed or uncompilable pattern, and otherwise passes exactly when every matching datum key passes its type |
| ValidationProps.RestWalksUnmatched | src/validate.ts:82-87 | an object type with only `$rest` passes exactly when every key of the datum passes the rest type |
| ValidationProps.PlainKeyWithRestPasses | src/validate.ts:52-87 | an object type of one plain key and `$rest` passes exactly when the property under the unescaped key passes its type and every other key of the datum passes the rest type; the plain key is never walked against the rest type |
| ValidationProps.ExtraKeysOpenWithoutRest | src/validate.ts:48-87 | without `$rest`, an object type is decided by its own keys alone: datum keys it does not name are not checked |
| ValidationProps.EmptyShapeAcceptsAnyObject | src/validate.ts:48-87 | `{}` accepts every object-like datum |
| ValidationProps.DefinitionsKeyIgnored | src/validate.ts:57-58 | a leading `$definitions` key adds no check |
| ValidationProps.DeclaredDefinitionIsWalked | src/types.ts:338-355 | `definition(p)` with a declaration at `p` validates the datum exactly as the declared type does |
| ValidationProps.UnknownControlKeyThrows | src/validate.ts:54-61 | a control key other than the three known ones throws `unknown control key` |
| Mocking.Random | src/mock.ts:16 | `_.random(lo, hi)` lies between its bounds, in either order, and costs one draw |
| Mocking.GetKey | src/mock.ts:9-11 | the slot key is `data` at the root, and otherwise the last step of the path |
| Mocking.Store | src/mock.ts:114-124 | at the root, storing replaces the datum; in an object, it writes the key; nothing is allocated or drawn |
| Mocking.MockWalk | src/mock.ts:77-130 | a mock walk only grows the heap, hands back the marker map it was given (line 127), and leaves the root as it was apart from the datum |
| Mocking.MockContainer | src/mock.ts:92-122 | revisiting a marked schema with no cycle budget reuses its node; with a spent budget it throws `cycle is detected`; the unrolling branch is stated by `MockProps.RevisitUnrollsOnce` |
| Mocking.Fill | src/mock.ts:108-129 | making, storing and filling a node keeps the state steady: the heap only grows and the marker map is handed back |
| Mocking.MockArray | src/mock.ts:13-20 | several element types throw; an empty array schema mocks nothing into the array |
| Mocking.MockArrayLoop | src/mock.ts:15-19 | the loop fills at most ten elements and keeps the state steady |
| Mocking.MockObject | src/mock.ts:22-52 | each key of the schema mocks into the node in turn, keeping the state steady |
| Mocking.SlotKey | src/mock.ts:29-50 | a plain key mocks at its unescaped name; an unknown control key throws; `$rest` without a key mock throws |
| Mocking.MockApply | src/types.ts:220-224 | combinators without a mock half refuse with `"name" must be used with "mock" type` |
| Mocking.MockScalar | src/types.ts:8-306 | `int` mocks in [-127, 127], `uint` in [0, 255], `bool` a boolean, `str` a string, `nil` and `never` undefined |
| Mocking.MockChoice | src/types.ts:149-162 | an empty choice mocks undefined; a choice among literals mocks one of them |
| Mocking.Select | src/mock.ts:58-75 | the chosen type is one of the offered ones; within a cycle budget, its quota was positive and is now lower; the exact quotas are stated by `MockProps.SelectQuotas` |
| Mocking.Eligible | src/mock.ts:62-73 | a type is offered only when its quota is positive; a new type's quota starts at `cycleDeep - 1`; quotas never grow |
| Mocking.EligibleQuotas | src/mock.ts:62-73 | after the loop, a listed type has spent one unit per listing from its starting quota, down to 0; an unlisted type keeps its quota, or still has none |
| Mocking.EligibleMembers | src/mock.ts:66-72 | every listed type whose starting quota is positive is offered |
| Mocking.Pick | src/mock.ts:60 | an index into a non-empty list is within it |
| Mocking.MockStart | src/mock.ts:132-144 | the mock root is in mock mode with no markers |
| Mocking.Mock | src/mock.ts:132-151 | a mocked datum validates against the schema; a rejected one carries a non-empty error list |
| MockProps.MockIntRoundTrip | src/mock.ts:132-151 | mocking `intN` (N >= 8) always yields a number in [-127, 127] that passes validation |
| MockProps.MockUIntRoundTrip | src/mock.ts:132-151 | mocking `uintN` always yields a number in [0, 255] that passes validation |
| MockProps.MockBoolRoundTrip | src/mock.ts:132-151 | mocking `bool` always yields a boolean that passes validation |
| MockProps.MockStrRoundTrip | src/mock.ts:132-151 | mocking `str` always yields a string that passes validation |
| MockProps.MockEnumRoundTrip | src/types.ts:149-162 | mocking `enum` of literal values yields one of those values, and it passes validation |
| MockProps.MockNeverIsRejected | src/types.ts:302-306 | mocking `never` yields undefined, which its own validation rejects |
| MockProps.LiteralArrayFill | src/mock.ts:13-20 | an array of a literal type is filled only with that literal |
| MockProps.RevisitReusesNode | src/mock.ts:96-101 | with no cycle budget, a revisited schema stores and returns the node already built for it |
| MockProps.SpentCycleThrows | src/mock.ts:102-106 | with a cycle budget whose count is spent, revisiting throws `cycle is detected` |
| MockProps.SelfReferenceClosesOnItself | src/mock.ts:92-117 | mocking `{ next: definition('node') }`, declared as `node`, yields an object whose `next` is itself |
| MockProps.DefinitionWalksDeclared | src/types.ts:338-355 | `definition(p)` mocks the type declared at `p` |
| MockProps.AnyOfMocksOneMember | src/types.ts:248-251 | `anyOf(ts)` mocks one of its members, chosen by one draw |
| MockProps.SelectKeepsQuotasInRange | src/mock.ts:58-75 | quotas stay within [0, cycleDeep - 1] across selections |
| MockProps.SelectSpendsQuota | src/mock.ts:58-75 | the chosen type had a positive quota, and it is lower afterwards; when no type is listed twice it is exactly one less |
| MockProps.SelectQuotas | src/mock.ts:58-75 | one selection takes one draw; each listed type spends one unit per listing, down to 0; every other type keeps its quota |
| MockProps.SelectDistinctQuotas | src/mock.ts:66-71 | with no type listed twice, an eligible type's quota drops by exactly one, an ineligible one is unchanged, and the offered types are exactly those with a positive starting quota |
| MockProps.RevisitUnrollsOnce | src/mock.ts:102-103 | with a cycle budget and a positive count, a revisited schema spends one unit of the count and gets a fresh node in its slot; the markers are unchanged |
| Lowering.Unpack | src/grammar/transform/ast-lier.ts:24-29 | unpacking turns a packed expression into a `self` combinator with a fresh id, and leaves every other type unchanged |
| Lowering.RefTarget | src/types.ts:308-325 | `ref()` with no target, null or an empty string refers to the whole schema; a plain name refers to that key |
| Lowering.Numbers | src/grammar/transform/ast-lier.ts:394-417 | the arguments are numbers exactly when every one is a numeric literal, and they are read in order |
| Lowering.MockComb | src/types.ts:175-207 | `mock` needs at least two arguments; the last is the type, the others the mocks |
| Lowering.RangeComb | src/types.ts:392-404 | `range` with the wrong number of arguments throws; with one bound, 0 lies within the range |
| Lowering.FactoryComb | src/types.ts:209-267 | `allOf`, `oneOf` and `anyOf` keep their arguments in order |
| Lowering.Invoke | src/grammar/transform/ast-lier.ts:394-417 | only factories can be called, and a call builds a new combinator with a fresh id |
| Lowering.EnumReset | src/grammar/transform/ast-lier.ts:373-375 | a truthy number restarts the count there; 0, null and false leave it alone; `true` restarts at 1 |
| Lowering.EnumNumbers | src/grammar/transform/ast-lier.ts:366-379 | every enum member becomes a numeric literal |
| Lowering.Lower | src/grammar/transform/ast-lier.ts:51-63 | lowering only adds declarations and fresh ids |
| Lowering.LowerObject | src/grammar/transform/ast-lier.ts:336-365 | an object node becomes a new object schema with a fresh id |
| Lowering.LowerEnum | src/grammar/transform/ast-lier.ts:366-379 | an enum node becomes `enum` of exactly the member numbers |
| Lowering.LowerMatch | src/grammar/transform/ast-lier.ts:380-393 | a match node becomes a `match` combinator |
| Lowering.LowerTuple | src/grammar/transform/ast-lier.ts:418-427 | a tuple node becomes `tuple` of unpacked items |
| Lowering.LowerIdent | src/grammar/transform/ast-lier.ts:428-433 | a name from the table is that combinator; any other name is `definition([name])` |
| Lowering.LowerDeclare | src/grammar/transform/ast-lier.ts:455-457 | a declaration yields undefined |
| Lowering.LowerModifier | src/grammar/transform/ast-lier.ts:461-466 | `...T` becomes `rest` and `T?` becomes `optional` |
| Lowering.LowerElement | src/grammar/transform/ast-lier.ts:467-472 | an element's value is unpacked |
| Lowering.LowerArray | src/grammar/transform/ast-lier.ts:473-475 | `T[]` becomes a one-element array schema of the unpacked type |
| Lowering.LowerEach | src/grammar/transform/ast-lier.ts:418-427 | the children are lowered in order, one value each, onto what was already lowered |
| Lowering.LowerUnary | src/grammar/transform/ast-lier.ts:64-104 | `!` of a type is `not`; `~ + -` of a packed expression stays deferred; of a constant they fold |
| Lowering.LowerMember | src/grammar/transform/ast-lier.ts:105-128 | member access only adds fresh ids |
| Lowering.LowerBinary | src/grammar/transform/ast-lier.ts:129-335 | lowering both operands, left first, and combining them only adds declarations and fresh ids |
| Lowering.Combine | src/grammar/transform/ast-lier.ts:129-335 | `a \| b` is a two-member `anyOf(a, b)` and `a & b` a two-member `allOf(a, b)` of the unpacked operands, so `a \| b \| c` is `anyOf(anyOf(a, b), c)`; other operators defer when the left operand is any function (a combinator, a factory or a packed expression), as `leftFunctioned` does, fold constants as `CompileTime.Compute` does, or throw for an unknown operator |
| Lowering.LowerCall | src/grammar/transform/ast-lier.ts:394-417 | calling a callee that is not a function throws `… is not function` |
| Lowering.LowerCases | src/grammar/transform/ast-lier.ts:383-391 | the cases are appended in order, with unpacked conditions and bodies |
| Lowering.LowerProperties | src/grammar/transform/ast-lier.ts:338-363 | the properties are lowered in order |
| Lowering.LowerProperty | src/grammar/transform/ast-lier.ts:339-362 | an identifier key is the key's name; an optional property is wrapped in `optional` |
| Lowering.PropertyKey | src/grammar/transform/ast-lier.ts:342 | an identifier key is used as written |
| Lowering.LowerDecorators | src/grammar/transform/ast-lier.ts:344-358 | with no decorators left, the value is unchanged |
| Lowering.Decorate | src/grammar/transform/ast-lier.ts:344-358 | a decorator not in the table throws `not implemented decorate:` |
| Lowering.FirstElement | src/grammar/transform/ast-lier.ts:42-50 | the first element node, or none if there is none |
| Lowering.Compile | src/grammar/transform/ast-lier.ts:485-491 | with no element the assignment is null; the declarations are a fresh object and the assignment is unpacked |
| LoweringProps.EnumNumbering | src/grammar/transform/ast-lier.ts:366-379 | member `j` of an enum gets the number reached by counting on from the last reset before it |
| LoweringProps.EnumCountsFromZero | src/grammar/transform/ast-lier.ts:366-379 | with no resets, the members are numbered 0, 1, 2, … |
| LoweringProps.EnumLowering | src/grammar/transform/ast-lier.ts:366-379 | the enum node lowers to `enum` of exactly those numbers |
| LoweringProps.DecoratorsNest | src/grammar/transform/ast-lier.ts:344-358 | wrapper decorators nest the value, the first one innermost |
| LoweringProps.FactoryDecoratorCalls | src/grammar/transform/ast-lier.ts:344-358 | a decorator `@f(a…)` naming a factory calls `f` with its arguments compiled in order, one value each, and the decorated value appended last; an argument that fails to compile fails the decorator |
| LoweringProps.DescriptionDecorator | src/grammar/transform/ast-lier.ts:344-358 | `@description(s)` makes `description(s, value)`: the string comes first and the decorated value second |
| LoweringProps.OptionalWrapsDecorators | src/grammar/transform/ast-lier.ts:343-361 | `optional` wraps the value outside all of its decorators |
| LoweringProps.SelfMemberReadsPath | src/grammar/transform/ast-lier.ts:110-118 | `self.a.b` lowers to a deferred expression that reads `a.b` from the root datum |
| LoweringProps.NamedMemberIsDefinition | src/grammar/transform/ast-lier.ts:127 | `name.a.b` with a name outside the table lowers to `definition([name, a, b])` |
| LoweringProps.NullStepDefinition | src/grammar/transform/ast-lier.ts:105-127 | `name[null]` lowers to a definition looked up by the keys `name` and `"null"`, whose messages print the path as `name,` |
| LoweringProps.IdentifierLowering | src/grammar/transform/ast-lier.ts:428-433 | a table name lowers to its combinator; any other name lowers to its definition |
| LoweringProps.DeclarationReadsBack | src/grammar/transform/ast-lier.ts:455-457 | after `declare path = T`, the declarations hold the unpacked `T` at `path` |
| LoweringProps.FirstElementPrefix | src/grammar/transform/ast-lier.ts:42-50 | appending nodes never changes which element comes first |
| LoweringProps.CompileIgnoresLaterNodes | src/grammar/transform/ast-lier.ts:42-50 | only the first element is compiled; nodes after it do not change the result |
| Checking.RecordUse | src/grammar/check.ts:83-84 | recording a use sets that key and leaves the other keys alone |
| Checking.CheckIdent | src/grammar/check.ts:235-240 | a name outside the table is recorded as used; as written, every identifier routes to null |
| Checking.RouteValues | src/grammar/check.ts:69-71 | the children are routed in order, one value each |
| Checking.Operate | src/grammar/check.ts:87-177 | operators on two constants give the value JavaScript computes |
| Checking.CheckDecorators | src/grammar/check.ts:186-197 | a decorator not in the table throws `not implemented decorate:` |
| Checking.ApplyDeclares | src/grammar/check.ts:293-295 | applying the declarations keeps the declarations object's identity |
| CheckingProps.MemberRecordsPath | src/grammar/check.ts:68-86 | `name.a.b` with a name outside the table records the path `name[]a[]b` and routes to null |
| CheckingProps.OneStepRecordsPath | src/grammar/check.ts:68-86 | `name[step]` records the lookup path `[name, String(step)]` under `name[]` followed by the step as `join` prints it, empty for null and undefined |
| CheckingProps.NullStepPrintsEmpty | src/grammar/check.ts:82-84 | `name[null]` is kept under the key `name[]` while its lookup path still holds `"null"` |
| CheckingProps.EmptyStepSharesTheKey | src/grammar/check.ts:82-84 | `name['']` is kept under the same key `name[]`, so it and `name[null]` overwrite each other |
| CheckingProps.SelfMemberRecordsNothing | src/grammar/check.ts:68-86 | `self.a.b` records nothing and routes to null |
| CheckingProps.UnknownOperatorThrows | src/grammar/check.ts:87-177 | an operator outside the table throws `not implemented binary operator:` |
| CheckingProps.NumbersCompute | src/grammar/check.ts:87-177 | a binary operator on two numbers routes to the JavaScript result and records nothing |
| CheckingProps.NonFunctionCallThrows | src/grammar/check.ts:216-225 | calling something that is not a function throws `… is not function` |
| CheckingProps.AsWrittenCallsThrow | src/grammar/check.ts:216-240 | as written, every call whose callee is a name throws `null is not function` |
| CheckingProps.CorrectedFactoryCallRoutesArgs | src/grammar/check.ts:216-240 | (corrected) calling a factory routes its arguments and yields null |
| CheckingProps.AsWrittenUnaryThrows | src/grammar/check.ts:44-67 | as written, a unary operator on anything but a function throws, because `utils.isObject` does not exist |
| CheckingProps.CorrectedUnaryComputes | src/grammar/check.ts:44-67 | (corrected) a unary operator on a constant gives the JavaScript result |
| CheckingProps.CorrectedNotOfObject | src/grammar/check.ts:44-67 | (corrected) `!` of an object-like type is `not` of it; any other operator throws `not implemented unary:` |
| CheckingProps.UsesChecked | src/grammar/check.ts:296-300 | the check passes exactly when every recorded use is a path of the declarations |
| CheckingProps.FirstMissingThrows | src/grammar/check.ts:296-300 | the first use missing from the declarations throws `not implemented type:` and its path |
| CheckingProps.LastDeclarationFound | src/grammar/check.ts:293-295 | the last declaration applied can always be found again |
| CheckingProps.DeclaredPathAccepted | src/grammar/check.ts:290-301 | a program that declares a path and then uses it passes the check |
| CheckingProps.UndeclaredNameRejected | src/grammar/check.ts:290-301 | a program that uses a name it never declares throws `not implemented type:` and the name |
| CheckingProps.UndeclaredNullStepRejected | src/grammar/check.ts:290-301 | an undeclared `name[null]` throws `not implemented type: name,`: the message prints the null step as empty text |

## Left out

- Floating point: numbers are integers. `float`, `double` and `number` are modelled only as far as integers reach. A number with a fraction or an exponent in text is `Unmodelled`.
- Operators.Arith: integers are exact at every size. A JavaScript number loses precision beyond 2^53, so the source folds `9007199254740992 + 1` to 9007199254740992 where the model gives 9007199254740993. The same holds for number literals and data beyond 2^53 everywhere in the model; digit strings handed to Big.js stay exact, as in the source.
- Big.js: the arbitrary-precision integer comparison of `utils.ts`/`types.ts` is modelled with Dafny's unbounded integers.
- Validation.IntMessage: a `+`-signed digit string beyond the safe range passes `isInteger`, and Big.js then throws on it. The model gives `Unmodelled` there rather than the library's error. A one-element array whose element is itself an array is read through nested `String` calls, and is `Unmodelled` too.
- Regular expressions: the engine that tests and compiles them, and RandExp, are parameters (`RegexEngine`, `Oracle`). Only their results are modelled.
- Validation.PatternLoop: `RegexEngine.test` is a pure function, so the `lastIndex` that a JavaScript RegExp with the `g` or `y` flag carries from one `test` call to the next is not modelled. With the pattern key `/a/g` over the datum keys `ba` and `ca`, the source matches only `ba`, because the second test starts at index 2; the model matches both. Likewise `Validation.ValidateRegex` accepts both elements of `["a", "a"]` against `[/a/g]`, where the source rejects the second.
- `for … in` order: object keys are visited in insertion order, as JavaScript does for string keys. Integer-like keys, which JavaScript visits first, are not reordered.
- Strings are sequences of characters, not UTF-16 code units.
- Lodash: the functions are modelled only on the values lier passes to them. Function objects have no properties.
- JavaScript's own TypeError texts are approximated as `Cannot read property 'k' of undefined`.
- `eq` and `mock` values that are functions or schemas compare by model identity.
- A packed expression or a factory used directly as a type is `Unmodelled`. The source calls whatever it finds.
- ValidationProps.TuplePassesIffEveryItemPasses: requires plain items; `tuple` items of the form `{ ___rest: … }` are `Unmodelled`, although `Validation.TupleItems` keeps the path invariant for them.
- Compile-time `merge` and compile-time `match` fold only constants. Anything else is `Unmodelled`.
- Fuel: every recursive walk has a fuel bound that stands in for the JavaScript call stack. Exhausting it is `StackExhausted`. Schemas the source walks forever (`anyOf(ref())` at the root) fail that way.
- The parser from text to AST is not part of this model. The AST is the input.
- `__packing__` as a property name, and inherited prototype names in the factory table, are not modelled.
- `_.set` of an array index, and aliasing between declaration objects, are `Unmodelled`. `NoNode` stands for a null or undefined AST child.
- `check.ts` folds only constant operands. Operator results the model cannot fold are opaque, and AST kinds without a handler are routed to themselves.
- Validation.Validate: takes the declarations that the callers in `index.ts` (`assert`, `validatex`) and `mock.ts:146` pass. The code as written does not use them: the default export at src/validate.ts:126-132 has two parameters and builds `new Root(data, type)` with no declarations. So, as written, every `definition` that `validate` reaches throws `not implemented type:` at types.ts:340-341, declared or not. That covers `validatex`, `assert` and mock's final check. The model follows the callers instead, and the same goes for `Mocking.Mock`.
- The `Root` constructor in `interfaces.ts` and the root that `mock.ts` builds disagree on fields. The model uses one record that holds the fields both need.
- The grammar tests expect enum members to keep their own values, but `ast-lier.ts:366-379` numbers them. The model follows the code.
- Utils.MergeFlat: states only merges of flat sources.
- Utils.Merge: the recursion of utils.ts:98-104 is stated for one level, by MergeNestedIntoFresh: a flat inner object merged into a fresh `{}`. Merging into an existing truthy entry, and deeper nesting, are stated only by frame properties: no heap cell is freed and fresh addresses stay fresh.
- Validation.Walk: the engine runs the corrected `oneOf`, which keeps the caller's errors. The `Kept` frame of `Walk`, under which a walk leaves the errors outside its path alone, therefore does not hold of the code as written: at types.ts:237-241 a `oneOf` whose count is not 1 discards the caller's earlier errors. The as-written behaviour is modelled only for one `oneOf` at a time, by `Validation.OneOfErrorsAsWritten` and `ValidationProps.OneOfAsWrittenDropsEarlierErrors`.
- Mocking.Eligible: its own contract bounds the quotas; the exact values, one unit spent per listing while positive, are stated by `Mocking.EligibleQuotas` and `MockProps.SelectDistinctQuotas`.
- ValidationProps.AnyOfPassesIffSomeMemberAccepts: requires the walk to succeed. A member that throws makes `anyOf` throw, as in the source.
- MockProps.MockIntRoundTrip: states mocking for widths of 8 bits and more, which are the widths the table defines.

## Findings

| source | as written | input that shows it | evidently intended | confidence | as-written member | corrected member |
|---|---|---|---|---|---|---|
| src/types.ts:237-241 | when the count is not 1, `oneOf` pushes its record onto the errors of the last attempt, so the caller's earlier errors are lost | `oneOf(bool, bool)` on `true` while an error at `x` is already recorded | keep the caller's errors and add one record | not executed | ValidationProps.OneOfAsWrittenDropsEarlierErrors | ValidationProps.OneOfPassesIffExactlyOneAccepts |
| src/grammar/check.ts:235-240 | every identifier routes to `null`, so the call handler (216-225) throws for every call | `range(1, 2)` | a factory name routes to a function, so its arguments are checked | not executed | CheckingProps.AsWrittenCallsThrow | CheckingProps.CorrectedFactoryCallRoutesArgs |
| src/grammar/check.ts:49 | `utils.isObject` is not defined in `grammar/utils.ts`, so any unary operator on a non-function throws | `-1` | fold the operator on constants, and apply `!` to object-like types | not executed | CheckingProps.AsWrittenUnaryThrows | CheckingProps.CorrectedUnaryComputes |
| src/grammar/utils.ts:32-38 | `new RegExp(match[0], match[1])` passes the whole key as the pattern and the body as the flags; `(img)*` admits only repeats of `img` | keys `/g/` and `/a/i` | `new RegExp(match[1], match[2])`, with flags `[img]*` | not executed | GrammarUtils.MakeKeySwapsPatternAndFlags | GrammarUtils.MakeKeyRegexRoundTrip |
