# A verified model of the koryphe core

Koryphe is a Java library of small, composable functions, predicates and
binary operators. Many of them wrap an inner function with *adapters* that
reshape the input before the call and the output after it. This project
models the core of the library in Dafny and proves what its code promises:

- `ValidationResult` (module `Koryphe`): the error accumulator. It holds a
  validity flag and an insertion-ordered, duplicate-free set of messages.
- `InputAdapted`, `AdaptedPredicate` and `AdaptedBinaryOperator` (modules
  `Adapted`, `Predicate`, `BinaryOperator`): the adapter classes, with their
  null guards and the exact order in which adapters and inner calls compose.
- `TupleOutputAdapter` (module `Tuple`): writes an output into the slots of a
  mutable tuple, in place.
- `KorypheFunction2`, `KoryphePredicate4` and `KoryphePredicate5` (modules
  `TupleFunction`, `TuplePredicate`, over the tuple values of `TupleN`): the
  tuple-to-positional delegation.
- `DivideBy` and `MultiplyLongBy` (module `ImplFunction`, arithmetic in
  `JavaInts`): Java `int` quotient and remainder, and the wrapping Java `long`
  product.
- `CsvToMaps` (module `ImplFunction`): turns each CSV record into a map keyed
  by the header names.
- `StringConcat` and the type dispatch of `NumericAggregateFunction` (module
  `ImplBinaryOperator`).
- `IsA` and `MultiRegex` (module `ImplPredicate`).

Classes whose methods update fields are Dafny classes with `modifies` and
`reads` frames. The tuple and stateless logic are datatypes, functions and
lemmas. Loops in the source (`TupleOutputAdapter.apply`,
`CsvToMaps.extractMap`, `MultiRegex.test`, `patternsToStrings`) are methods
with loop invariants. Each is proved against a specification function.

Modelling conventions:

- Java `null` is `None` of an `Option`, and an exception is `Err` of a
  `Result` (module `Wrappers`).
- Values that pass through adapters have one type parameter `V`. It stands
  for Java's erased `Object`, so the unchecked cast done when no adapter is
  set is the identity.
- A superclass is a `base` object held by composition. Its `cls` field stands
  for `getClass()`.
- Java `int`, `long` and `short` are subset types of `int`. Wrap-around and
  truncating division are written out, following sections 4.2.2, 15.17.1,
  15.17.2 and 15.17.3 of the Java Language Specification. Dafny's own `/`
  and `%` are Euclidean, so they are not used for Java's operators.

Behaviour worth noting (the model follows the code):

- `TupleOutputAdapter.setProjection` stores the caller's array itself. It
  does not copy it, so later writes to that array reach the adapter. Only
  `getProjection` copies.
- `CsvToMaps.getHeader` returns the live header list. `setHeader` clears that
  list before adding the new names, so `setHeader(getHeader())` empties it.
- `MultiRegex.equals` compares the patterns' source strings only. Two
  predicates whose patterns differ only in their flags are equal, even
  though they can match different inputs (`EqualsIgnoresFlags`).

## Model

| member | source | states |
|---|---|---|
| Koryphe.Insert | core/src/main/java/uk/gov/gchq/koryphe/ValidationResult.java:49 | `LinkedHashSet.add`: keeps the set duplicate-free; the result holds exactly the old members plus the message; the old order is an untouched prefix; the set is unchanged exactly when the message was already present |
| Koryphe.InsertAll | core/src/main/java/uk/gov/gchq/koryphe/ValidationResult.java:60-62 | `addAll`: duplicate-free; membership is the union; the old messages stay first, in order |
| Koryphe.Merged | core/src/main/java/uk/gov/gchq/koryphe/ValidationResult.java:56-68 | the error set after merging an invalid result: duplicate-free; holds exactly the old errors, the other result's errors and the extra message; the old errors are an untouched prefix |
| Koryphe.InsertAllAppendsUnseen | core/src/main/java/uk/gov/gchq/koryphe/ValidationResult.java:60-62 | adding a duplicate-free set appends exactly its not-yet-present messages, in their order |
| Koryphe.Join | core/src/main/java/uk/gov/gchq/koryphe/ValidationResult.java:105 | `StringUtils.join`: no messages give the empty string, one message gives itself, and the first message always starts the result |
| Koryphe.JoinSnoc | core/src/main/java/uk/gov/gchq/koryphe/ValidationResult.java:105 | joining one more message adds one separator and that message at the end |
| Koryphe.ValidationResult.constructor | core/src/main/java/uk/gov/gchq/koryphe/ValidationResult.java:34-38 | a fresh result is valid with no errors, and the invariant holds |
| Koryphe.ValidationResult.WithError | core/src/main/java/uk/gov/gchq/koryphe/ValidationResult.java:40-42 | the one-message constructor gives an invalid result holding exactly that message |
| Koryphe.ValidationResult.AddError | core/src/main/java/uk/gov/gchq/koryphe/ValidationResult.java:44-50 | the result becomes invalid; the message is appended unless already present; the invariant (invalid exactly when errors are non-empty, no duplicates) is kept |
| Koryphe.ValidationResult.Add | core/src/main/java/uk/gov/gchq/koryphe/ValidationResult.java:52-54 | a valid argument changes nothing; an invalid one makes this invalid and merges its errors in |
| Koryphe.ValidationResult.AddWithMessage | core/src/main/java/uk/gov/gchq/koryphe/ValidationResult.java:56-69 | a valid argument changes nothing and the extra message is not added; an invalid one makes this invalid with old errors, the other's errors, then the message if given |
| Koryphe.ValidationResult.IsValid | core/src/main/java/uk/gov/gchq/koryphe/ValidationResult.java:71-73 | valid exactly when there are no errors |
| Koryphe.ValidationResult.GetErrors | core/src/main/java/uk/gov/gchq/koryphe/ValidationResult.java:75-81 | never null: empty exactly when valid, and duplicate-free |
| Koryphe.ValidationResult.GetErrorString | core/src/main/java/uk/gov/gchq/koryphe/ValidationResult.java:104-106 | the banner, the separator, then all errors joined by the separator in insertion order; exactly the banner line when valid; banner, separator and the message when there is one error |
| Koryphe.ValidationResult.Equals | core/src/main/java/uk/gov/gchq/koryphe/ValidationResult.java:108-124 | reflexive; otherwise equal exactly when the error sets are equal, in any order (the flags then agree too) |
| Koryphe.MergeIsMonotonic | core/src/main/java/uk/gov/gchq/koryphe/ValidationResult.java:56-68 | merging never removes or reorders an old error, never empties a non-empty set, and takes in every error of the other result |
| Koryphe.MergedLayout | core/src/main/java/uk/gov/gchq/koryphe/ValidationResult.java:56-68 | the merged set is: the old errors, then the other result's new errors in order, then the extra message if it is new |
| Koryphe.ErrorStringGrows | core/src/main/java/uk/gov/gchq/koryphe/ValidationResult.java:104-106 | recording a new error appends one separator and that message to the joined errors |
| Koryphe.AddErrorExtendsErrorString | core/src/main/java/uk/gov/gchq/koryphe/ValidationResult.java:44-50 | after `addError`, `getErrorString()` gains the message after the banner line if there were no errors before, gains a separator and the message if the message is new, and is unchanged if it was already recorded |
| Koryphe.MergeValidIntoInvalid | core/src/main/java/uk/gov/gchq/koryphe/ValidationResult.java:52-69 | merging a valid result into one holding "bad" leaves exactly ["bad"] and invalid |
| Adapted.Adapt | core/src/main/java/uk/gov/gchq/koryphe/adapted/InputAdapted.java:63 | no adapter is the identity; an adapter `f` gives `f(x)` |
| Adapted.InputAdapted.constructor | core/src/main/java/uk/gov/gchq/koryphe/adapted/InputAdapted.java:39-41 | no adapter is set |
| Adapted.InputAdapted.WithAdapter | core/src/main/java/uk/gov/gchq/koryphe/adapted/InputAdapted.java:43-45 | stores the given adapter |
| Adapted.InputAdapted.GetInputAdapter | core/src/main/java/uk/gov/gchq/koryphe/adapted/InputAdapted.java:47-49 | the stored adapter, `None` for null; it has no contract of its own and `SetInputAdapter` states the set-then-get round trip |
| Adapted.InputAdapted.SetInputAdapter | core/src/main/java/uk/gov/gchq/koryphe/adapted/InputAdapted.java:47-54 | the getter returns what was set |
| Adapted.InputAdapted.AdaptInput | core/src/main/java/uk/gov/gchq/koryphe/adapted/InputAdapted.java:62-64 | identity without an adapter, `f(x)` with adapter `f` |
| Adapted.InputAdapted.Equals | core/src/main/java/uk/gov/gchq/koryphe/adapted/InputAdapted.java:66-80 | reflexive, and equal instances have the same runtime class |
| Adapted.EqualsAdaptAlike | core/src/main/java/uk/gov/gchq/koryphe/adapted/InputAdapted.java:76-79 | equal instances adapt every input alike |
| Adapted.EqualsNeedsSameClass | core/src/main/java/uk/gov/gchq/koryphe/adapted/InputAdapted.java:72-74 | instances of different classes are never equal |
| Predicate.AdaptedPredicate.constructor | core/src/main/java/uk/gov/gchq/koryphe/predicate/AdaptedPredicate.java:46-47 | neither adapter nor predicate is set |
| Predicate.AdaptedPredicate.WithPredicate | core/src/main/java/uk/gov/gchq/koryphe/predicate/AdaptedPredicate.java:49-52 | stores both the adapter and the predicate, as the getters return them |
| Predicate.AdaptedPredicate.GetPredicate | core/src/main/java/uk/gov/gchq/koryphe/predicate/AdaptedPredicate.java:65-67 | the stored predicate, `None` for null; it has no contract of its own and `SetPredicate` states the round trip |
| Predicate.AdaptedPredicate.SetPredicate | core/src/main/java/uk/gov/gchq/koryphe/predicate/AdaptedPredicate.java:65-71 | the getter returns what was set |
| Predicate.AdaptedPredicate.SetInputAdapter | core/src/main/java/uk/gov/gchq/koryphe/predicate/AdaptedPredicate.java:50 | the inherited adapter setter updates the base part only |
| Predicate.AdaptedPredicate.Test | core/src/main/java/uk/gov/gchq/koryphe/predicate/AdaptedPredicate.java:60-63 | true with no predicate; `p(x)` with no adapter; `p(f(x))` with adapter `f` |
| Predicate.AdaptedPredicate.Equals | core/src/main/java/uk/gov/gchq/koryphe/predicate/AdaptedPredicate.java:73-87 | reflexive, and equality implies the base (`InputAdapted`) equality |
| Predicate.EqualsTestAlike | core/src/main/java/uk/gov/gchq/koryphe/predicate/AdaptedPredicate.java:79-86 | equal predicates answer alike on every input |
| Predicate.UnsetPredicateIgnoresAdapter | core/src/main/java/uk/gov/gchq/koryphe/predicate/AdaptedPredicate.java:62 | with no predicate every input is accepted, whatever the adapter |
| BinaryOperator.AdaptOutput | core/src/main/java/uk/gov/gchq/koryphe/binaryoperator/AdaptedBinaryOperator.java:77 | no output adapter passes the result through; a function adapter sees the result; a bi-function adapter sees the original state and the result |
| BinaryOperator.AdaptedBinaryOperator.constructor | core/src/main/java/uk/gov/gchq/koryphe/binaryoperator/AdaptedBinaryOperator.java:46-47 | nothing is set |
| BinaryOperator.AdaptedBinaryOperator.WithFoldingAdapter | core/src/main/java/uk/gov/gchq/koryphe/binaryoperator/AdaptedBinaryOperator.java:49-55 | stores the operator, the input adapter and the bi-function output adapter |
| BinaryOperator.AdaptedBinaryOperator.WithMappingAdapter | core/src/main/java/uk/gov/gchq/koryphe/binaryoperator/AdaptedBinaryOperator.java:57-63 | stores the operator, the input adapter and the function output adapter |
| BinaryOperator.AdaptedBinaryOperator.GetBinaryOperator | core/src/main/java/uk/gov/gchq/koryphe/binaryoperator/AdaptedBinaryOperator.java:80-82 | the stored operator, `None` for null; it has no contract of its own and `SetBinaryOperator` states the round trip |
| BinaryOperator.AdaptedBinaryOperator.SetBinaryOperator | core/src/main/java/uk/gov/gchq/koryphe/binaryoperator/AdaptedBinaryOperator.java:80-87 | the getter returns what was set; the output adapter is unchanged |
| BinaryOperator.AdaptedBinaryOperator.Apply | core/src/main/java/uk/gov/gchq/koryphe/binaryoperator/AdaptedBinaryOperator.java:73-78 | fails with "BinaryOperator cannot be null" exactly when no operator is set, independent of the inputs; otherwise the output adapter applied to `op(adapt(state), adapt(input))` and the unadapted state |
| BinaryOperator.AdaptedBinaryOperator.Equals | core/src/main/java/uk/gov/gchq/koryphe/binaryoperator/AdaptedBinaryOperator.java:89-103 | reflexive, and equality implies the base equality |
| BinaryOperator.ApplyUnadapted | core/src/main/java/uk/gov/gchq/koryphe/binaryoperator/AdaptedBinaryOperator.java:77 | without adapters the result is `op(state, input)`, in that order |
| BinaryOperator.ApplyComposition | core/src/main/java/uk/gov/gchq/koryphe/binaryoperator/AdaptedBinaryOperator.java:77 | with input adapter `f` and folding adapter `g` the result is `g(state, op(f(state), f(input)))` |
| BinaryOperator.EqualsApplyAlike | core/src/main/java/uk/gov/gchq/koryphe/binaryoperator/AdaptedBinaryOperator.java:95-102 | equal operators give equal results and equal failures |
| Tuple.MapTuple.Put | core/src/main/java/uk/gov/gchq/koryphe/tuple/TupleOutputAdapter.java:64-68 | `Tuple.put(reference, value)`: that slot now holds the value, and every other slot is unchanged |
| Tuple.WrittenAt | core/src/main/java/uk/gov/gchq/koryphe/tuple/TupleOutputAdapter.java:66-69 | with distinct references the k-th reference's slot holds the k-th item |
| Tuple.WrittenElsewhere | core/src/main/java/uk/gov/gchq/koryphe/tuple/TupleOutputAdapter.java:66-69 | slots not written (including projected slots past the output's length) keep their old presence and value |
| Tuple.WrittenLastWins | core/src/main/java/uk/gov/gchq/koryphe/tuple/TupleOutputAdapter.java:66-69 | with a repeated reference the later item is the one stored |
| Tuple.TupleOutputAdapter.constructor | core/src/main/java/uk/gov/gchq/koryphe/tuple/TupleOutputAdapter.java:43-45 | the projection is empty |
| Tuple.TupleOutputAdapter.WithProjection | core/src/main/java/uk/gov/gchq/koryphe/tuple/TupleOutputAdapter.java:52-54 | stores the given array itself, or an empty one for null |
| Tuple.TupleOutputAdapter.SetProjection | core/src/main/java/uk/gov/gchq/koryphe/tuple/TupleOutputAdapter.java:82-88 | stores the given array itself (aliased), or a fresh empty one for null |
| Tuple.TupleOutputAdapter.GetProjection | core/src/main/java/uk/gov/gchq/koryphe/tuple/TupleOutputAdapter.java:93-95 | a fresh array with the same references |
| Tuple.TupleOutputAdapter.Apply | core/src/main/java/uk/gov/gchq/koryphe/tuple/TupleOutputAdapter.java:56-74 | null state gives null; one slot stores the whole output there and nothing else; otherwise item i goes to `projection[i]` in order, a non-iterable output fails before any write, and more items than slots fails after the slots are written; the given state object is returned |
| Tuple.ProjectionRoundTrip | core/src/main/java/uk/gov/gchq/koryphe/tuple/TupleOutputAdapter.java:82-95 | after `setProjection(p)`, `getProjection()` is a fresh array equal to `p` element-wise |
| TupleFunction.KorypheFunction2.DelegateApply | core/src/main/java/uk/gov/gchq/koryphe/tuple/function/KorypheFunction2.java:24-26 | `apply(get0, get1)`; it has no contract of its own and `DelegateApplyIsPositional` and `DelegateOfUntupled` state what it means |
| TupleFunction.DelegateApplyIsPositional | core/src/main/java/uk/gov/gchq/koryphe/tuple/function/KorypheFunction2.java:24-26 | `delegateApply(Tuple2(t, u)) == apply(t, u)` for every `t`, `u` (null included) |
| TupleFunction.DelegateOfUntupled | core/src/main/java/uk/gov/gchq/koryphe/tuple/function/KorypheFunction2.java:24-26 | from a pair function to `apply(t, u)` and back through the delegate gives the pair function again |
| TuplePredicate.KoryphePredicate4.DelegateTest | core/src/main/java/uk/gov/gchq/koryphe/tuple/predicate/KoryphePredicate4.java:24-27 | `test(get0, get1, get2, get3)`; it has no contract of its own and `DelegateTestIsPositional4` and `DelegateOfUntupled4` state what it means |
| TuplePredicate.KoryphePredicate5.DelegateTest | core/src/main/java/uk/gov/gchq/koryphe/tuple/predicate/KoryphePredicate5.java:24-27 | `test(get0, get1, get2, get3, get4)`; it has no contract of its own and `DelegateTestIsPositional5` and `DelegateOfUntupled5` state what it means |
| TuplePredicate.DelegateTestIsPositional4 | core/src/main/java/uk/gov/gchq/koryphe/tuple/predicate/KoryphePredicate4.java:24-27 | `delegateTest(Tuple4(t, u, v, w)) == test(t, u, v, w)`, answer unchanged |
| TuplePredicate.DelegateTestIsPositional5 | core/src/main/java/uk/gov/gchq/koryphe/tuple/predicate/KoryphePredicate5.java:24-27 | `delegateTest(Tuple5(t, u, v, w, x)) == test(t, u, v, w, x)`, answer unchanged |
| TuplePredicate.DelegateOfUntupled4 | core/src/main/java/uk/gov/gchq/koryphe/tuple/predicate/KoryphePredicate4.java:24-27 | the tuple view of a four-argument predicate is the original predicate over tuples |
| TuplePredicate.DelegateOfUntupled5 | core/src/main/java/uk/gov/gchq/koryphe/tuple/predicate/KoryphePredicate5.java:24-27 | the tuple view of a five-argument predicate is the original predicate over tuples |
| TuplePredicate.AscendingPairsExample | core/src/main/java/uk/gov/gchq/koryphe/tuple/predicate/KoryphePredicate4.java:26 | `t < u && v < w` through the delegate on `Tuple4(1, 2, 3, 4)` is true |
| TuplePredicate.FifthComponentExample | core/src/main/java/uk/gov/gchq/koryphe/tuple/predicate/KoryphePredicate5.java:26 | the fifth component reaches the fifth parameter and no other |
| JavaInts.Wrap32 | core/src/main/java/uk/gov/gchq/koryphe/impl/function/DivideBy.java:59 | the `int` congruent to the value modulo 2^32; the value itself when in range |
| JavaInts.Wrap64 | core/src/main/java/uk/gov/gchq/koryphe/impl/function/MultiplyLongBy.java:55 | the `long` congruent to the value modulo 2^64; the value itself when in range |
| JavaInts.Wrap64Unique | core/src/main/java/uk/gov/gchq/koryphe/impl/function/MultiplyLongBy.java:55 | two `long`s congruent modulo 2^64 are equal |
| JavaInts.Wrap64Exact | core/src/main/java/uk/gov/gchq/koryphe/impl/function/MultiplyLongBy.java:55 | any `long` congruent to a value is its wrap |
| JavaInts.TruncDivRem | core/src/main/java/uk/gov/gchq/koryphe/impl/function/DivideBy.java:59 | `q*b + r == a`, `|r| < |b|`, `r` is zero or has the dividend's sign, and `|q*b| <= |a|` (rounding toward zero) |
| JavaInts.SignedQuotientProduct | core/src/main/java/uk/gov/gchq/koryphe/impl/function/DivideBy.java:59 | the truncated quotient times the divisor has the dividend's sign and the magnitude-wise product as size |
| JavaInts.IntDiv | core/src/main/java/uk/gov/gchq/koryphe/impl/function/DivideBy.java:59 | Java `int` `/`: the quotient truncated toward zero, except `MIN_VALUE / -1`, which wraps to `MIN_VALUE` |
| JavaInts.IntRem | core/src/main/java/uk/gov/gchq/koryphe/impl/function/DivideBy.java:59 | Java `int` `%`: smaller than the divisor in magnitude, zero or of the dividend's sign, `(a/b)*b + a%b == a` wherever the quotient does not overflow, and 0 for `MIN_VALUE % -1` |
| JavaInts.LongMul | core/src/main/java/uk/gov/gchq/koryphe/impl/function/MultiplyLongBy.java:55 | Java `long` `*`: congruent to the exact product modulo 2^64, and equal to it when it fits in a `long` |
| JavaInts.TruncDivFits | core/src/main/java/uk/gov/gchq/koryphe/impl/function/DivideBy.java:59 | the truncated quotient of two `int`s is an `int`, except `MIN_VALUE / -1`, which is 2^31 |
| ImplFunction.DivideBy.constructor | core/src/main/java/uk/gov/gchq/koryphe/impl/function/DivideBy.java:37-40 | the default divisor is 1 |
| ImplFunction.DivideBy.WithDivisor | core/src/main/java/uk/gov/gchq/koryphe/impl/function/DivideBy.java:42-44 | stores the divisor, as `getBy` returns it |
| ImplFunction.DivideBy.GetBy | core/src/main/java/uk/gov/gchq/koryphe/impl/function/DivideBy.java:46-48 | the stored divisor; it has no contract of its own and `SetBy` states the round trip |
| ImplFunction.DivideBy.SetBy | core/src/main/java/uk/gov/gchq/koryphe/impl/function/DivideBy.java:46-52 | `getBy` returns what was set |
| ImplFunction.DivideBy.Apply | core/src/main/java/uk/gov/gchq/koryphe/impl/function/DivideBy.java:54-61 | null gives null; a zero divisor fails with `ArithmeticException`; otherwise `(q, r)` with `q*by + r == input` in 32 bits, `|r| < |by|`, `r` zero or of the input's sign, and `q` the truncated quotient (wrapped for `MIN_VALUE / -1`) |
| ImplFunction.DivideBy.Equals | core/src/main/java/uk/gov/gchq/koryphe/impl/function/DivideBy.java:63-77 | reflexive; otherwise equal exactly when the divisors are |
| ImplFunction.DefaultDividesByOne | core/src/main/java/uk/gov/gchq/koryphe/impl/function/DivideBy.java:37-59 | with the default divisor, `apply(x) == (x, 0)` |
| ImplFunction.DivideByEqualsApplyAlike | core/src/main/java/uk/gov/gchq/koryphe/impl/function/DivideBy.java:63-77 | equal instances give equal results on every input |
| ImplFunction.MultiplyLongBy.constructor | core/src/main/java/uk/gov/gchq/koryphe/impl/function/MultiplyLongBy.java:34-37 | the default multiplier is 1 |
| ImplFunction.MultiplyLongBy.WithMultiplier | core/src/main/java/uk/gov/gchq/koryphe/impl/function/MultiplyLongBy.java:39-41 | stores the multiplier, as `getBy` returns it |
| ImplFunction.MultiplyLongBy.GetBy | core/src/main/java/uk/gov/gchq/koryphe/impl/function/MultiplyLongBy.java:43-45 | the stored multiplier; it has no contract of its own and `SetBy` states the round trip |
| ImplFunction.MultiplyLongBy.SetBy | core/src/main/java/uk/gov/gchq/koryphe/impl/function/MultiplyLongBy.java:43-49 | `getBy` returns what was set |
| ImplFunction.MultiplyLongBy.Apply | core/src/main/java/uk/gov/gchq/koryphe/impl/function/MultiplyLongBy.java:51-57 | null exactly for null; otherwise congruent to the exact product modulo 2^64, and equal to it when it fits in a `long` |
| ImplFunction.MultiplyLongBy.Equals | core/src/main/java/uk/gov/gchq/koryphe/impl/function/MultiplyLongBy.java:59-73 | reflexive; otherwise equal exactly when the multipliers are |
| ImplFunction.MultiplierOneAndZero | core/src/main/java/uk/gov/gchq/koryphe/impl/function/MultiplyLongBy.java:34-55 | multiplier 1 is the identity and multiplier 0 gives 0 on every non-null input |
| ImplFunction.MultiplyIsTheWrappedProduct | core/src/main/java/uk/gov/gchq/koryphe/impl/function/MultiplyLongBy.java:55 | the result is the only `long` congruent to the product |
| ImplFunction.MultiplyOverflowExample | core/src/main/java/uk/gov/gchq/koryphe/impl/function/MultiplyLongBy.java:55 | `Long.MAX_VALUE * 2` wraps to -2 |
| ImplFunction.ZippedKeys | core/src/main/java/uk/gov/gchq/koryphe/impl/function/CsvToMaps.java:74-81 | the keys are exactly the header names of the record's columns; names past the record's length are absent |
| ImplFunction.ZippedAt | core/src/main/java/uk/gov/gchq/koryphe/impl/function/CsvToMaps.java:77-79 | column i's value is stored under its header name unless a later column repeats the name (the later column wins) |
| ImplFunction.StringList.constructor | core/src/main/java/uk/gov/gchq/koryphe/impl/function/CsvToMaps.java:53 | the shared `java.util.List<String>` header object, holding exactly the given names |
| ImplFunction.CsvToMaps.constructor | core/src/main/java/uk/gov/gchq/koryphe/impl/function/CsvToMaps.java:53-57 | empty header, `firstRow = 0`, `delimiter = ','`, not quoted, `quoteChar = '"'` |
| ImplFunction.CsvToMaps.ExtractMap | core/src/main/java/uk/gov/gchq/koryphe/impl/function/CsvToMaps.java:74-81 | the header-to-value map of the record, or `NoSuchElementException` when the record has more columns than names; its keys are the names of the record's columns |
| ImplFunction.CsvToMaps.Apply | core/src/main/java/uk/gov/gchq/koryphe/impl/function/CsvToMaps.java:59-72 | null gives null; a parse failure gives "Unable to parse csv"; otherwise one extraction per record, in order |
| ImplFunction.CsvToMaps.GetHeader | core/src/main/java/uk/gov/gchq/koryphe/impl/function/CsvToMaps.java:91-93 | the live header list itself |
| ImplFunction.CsvToMaps.SetHeader | core/src/main/java/uk/gov/gchq/koryphe/impl/function/CsvToMaps.java:95-98 | the header becomes the given names; passing the header list itself empties it |
| ImplFunction.CsvToMaps.HeaderNames | core/src/main/java/uk/gov/gchq/koryphe/impl/function/CsvToMaps.java:113-116 | appends the names and returns this |
| ImplFunction.CsvToMaps.HeaderFrom | core/src/main/java/uk/gov/gchq/koryphe/impl/function/CsvToMaps.java:118-121 | appends the collection's names and returns this |
| ImplFunction.CsvToMaps.SetFirstRow | core/src/main/java/uk/gov/gchq/koryphe/impl/function/CsvToMaps.java:104-106 | only `firstRow` changes |
| ImplFunction.CsvToMaps.FirstRow | core/src/main/java/uk/gov/gchq/koryphe/impl/function/CsvToMaps.java:108-111 | only `firstRow` changes; returns this |
| ImplFunction.CsvToMaps.SetDelimiter | core/src/main/java/uk/gov/gchq/koryphe/impl/function/CsvToMaps.java:127-129 | only `delimiter` changes |
| ImplFunction.CsvToMaps.Delimiter | core/src/main/java/uk/gov/gchq/koryphe/impl/function/CsvToMaps.java:131-134 | only `delimiter` changes; returns this |
| ImplFunction.CsvToMaps.SetQuoted | core/src/main/java/uk/gov/gchq/koryphe/impl/function/CsvToMaps.java:140-142 | only `quoted` changes |
| ImplFunction.CsvToMaps.Quoted | core/src/main/java/uk/gov/gchq/koryphe/impl/function/CsvToMaps.java:144-147 | turns quoting on and nothing else; returns this |
| ImplFunction.CsvToMaps.QuotedAs | core/src/main/java/uk/gov/gchq/koryphe/impl/function/CsvToMaps.java:149-152 | only `quoted` changes; returns this |
| ImplFunction.CsvToMaps.SetQuoteChar | core/src/main/java/uk/gov/gchq/koryphe/impl/function/CsvToMaps.java:158-160 | only `quoteChar` changes |
| ImplFunction.CsvToMaps.QuoteChar | core/src/main/java/uk/gov/gchq/koryphe/impl/function/CsvToMaps.java:162-165 | only `quoteChar` changes; returns this |
| ImplFunction.CsvToMaps.Equals | core/src/main/java/uk/gov/gchq/koryphe/impl/function/CsvToMaps.java:166-184 | reflexive; otherwise equal exactly when header, `firstRow`, `delimiter`, `quoted` and `quoteChar` agree |
| ImplFunction.CsvEqualsApplyAlike | core/src/main/java/uk/gov/gchq/koryphe/impl/function/CsvToMaps.java:176-183 | equal instances turn every CSV into the same maps |
| ImplBinaryOperator.StringOf | core/src/main/java/uk/gov/gchq/koryphe/impl/binaryoperator/StringConcat.java:48 | string conversion: a string is itself, null is "null" |
| ImplBinaryOperator.StringConcat.constructor | core/src/main/java/uk/gov/gchq/koryphe/impl/binaryoperator/StringConcat.java:35-40 | the default separator is "," |
| ImplBinaryOperator.StringConcat.WithSeparator | core/src/main/java/uk/gov/gchq/koryphe/impl/binaryoperator/StringConcat.java:42-44 | stores the separator (null allowed) |
| ImplBinaryOperator.StringConcat.GetSeparator | core/src/main/java/uk/gov/gchq/koryphe/impl/binaryoperator/StringConcat.java:51-53 | the stored separator, `None` for null; it has no contract of its own and `SetSeparator` states the round trip |
| ImplBinaryOperator.StringConcat.SetSeparator | core/src/main/java/uk/gov/gchq/koryphe/impl/binaryoperator/StringConcat.java:51-57 | `getSeparator` returns what was set |
| ImplBinaryOperator.StringConcat.Apply | core/src/main/java/uk/gov/gchq/koryphe/impl/binaryoperator/StringConcat.java:47-49 | length is `|a| + |separator| + |b|`; `a` is the prefix, the separator follows, `b` is the suffix |
| ImplBinaryOperator.StringConcat.Equals | core/src/main/java/uk/gov/gchq/koryphe/impl/binaryoperator/StringConcat.java:59-73 | reflexive; otherwise equal exactly when the separators are |
| ImplBinaryOperator.ApplyIsDeterminedByItsParts | core/src/main/java/uk/gov/gchq/koryphe/impl/binaryoperator/StringConcat.java:48 | any string made of `a`, the separator and `b`, in that order, is the result |
| ImplBinaryOperator.ApplyIsAssociative | core/src/main/java/uk/gov/gchq/koryphe/impl/binaryoperator/StringConcat.java:48 | `apply(apply(a, b), c) == apply(a, apply(b, c))` |
| ImplBinaryOperator.SeparatorExamples | core/src/main/java/uk/gov/gchq/koryphe/impl/binaryoperator/StringConcat.java:35-48 | the default joins "a" and "b" as "a,b"; a null separator gives "anullb" |
| ImplBinaryOperator.ConcatEqualsApplyAlike | core/src/main/java/uk/gov/gchq/koryphe/impl/binaryoperator/StringConcat.java:69-72 | equal instances concatenate alike |
| ImplBinaryOperator.CastInt | core/src/main/java/uk/gov/gchq/koryphe/impl/binaryoperator/NumericAggregateFunction.java:37 | `(Integer) b`: succeeds exactly for null or an Integer, is undone by boxing, and otherwise fails with `ClassCastException` |
| ImplBinaryOperator.CastLong | core/src/main/java/uk/gov/gchq/koryphe/impl/binaryoperator/NumericAggregateFunction.java:39 | `(Long) b`, likewise |
| ImplBinaryOperator.CastDouble | core/src/main/java/uk/gov/gchq/koryphe/impl/binaryoperator/NumericAggregateFunction.java:41 | `(Double) b`, likewise |
| ImplBinaryOperator.CastFloat | core/src/main/java/uk/gov/gchq/koryphe/impl/binaryoperator/NumericAggregateFunction.java:43 | `(Float) b`, likewise |
| ImplBinaryOperator.CastShort | core/src/main/java/uk/gov/gchq/koryphe/impl/binaryoperator/NumericAggregateFunction.java:45 | `(Short) b`, likewise |
| ImplBinaryOperator.Aggregate | core/src/main/java/uk/gov/gchq/koryphe/impl/binaryoperator/NumericAggregateFunction.java:35-49 | null or an unhandled kind of `a` gives null; a `b` of another kind fails with a cast error, the only failure; a result keeps `a`'s kind; for each handled kind the result is that kind's hook on `a` and the cast `b` |
| ImplBinaryOperator.OnlyTheMatchingHookMatters | core/src/main/java/uk/gov/gchq/koryphe/impl/binaryoperator/NumericAggregateFunction.java:36-48 | at most one hook takes part: subclasses that agree on the hook for `a`'s kind give the same result, and for an unhandled kind no hook matters |
| ImplBinaryOperator.AggregateFailsExactlyOnMixedKinds | core/src/main/java/uk/gov/gchq/koryphe/impl/binaryoperator/NumericAggregateFunction.java:37-45 | with a handled `a`, the call fails exactly when `b` is non-null and of another kind |
| ImplPredicate.IsA.constructor | core/src/main/java/uk/gov/gchq/koryphe/impl/predicate/IsA.java:40-41 | no type is set |
| ImplPredicate.IsA.OfClass | core/src/main/java/uk/gov/gchq/koryphe/impl/predicate/IsA.java:48-50 | stores the class |
| ImplPredicate.IsA.SetType | core/src/main/java/uk/gov/gchq/koryphe/impl/predicate/IsA.java:64-70 | a name that loads sets that class; one that does not fails with "Could not load class for given type: " and the name, leaving the type as it was |
| ImplPredicate.IsA.GetType | core/src/main/java/uk/gov/gchq/koryphe/impl/predicate/IsA.java:75-77 | null exactly when no type is set, otherwise the type's name |
| ImplPredicate.IsA.Test | core/src/main/java/uk/gov/gchq/koryphe/impl/predicate/IsA.java:85-88 | null input or no type accepts; otherwise accepts exactly when the type is assignable from the input's class |
| ImplPredicate.IsA.Equals | core/src/main/java/uk/gov/gchq/koryphe/impl/predicate/IsA.java:90-104 | reflexive; otherwise equal exactly when the types are (same `getType()`) |
| ImplPredicate.FromName | core/src/main/java/uk/gov/gchq/koryphe/impl/predicate/IsA.java:57-59 | the by-name constructor fails for an unknown name and otherwise gives a fresh instance of that type |
| ImplPredicate.NameRoundTrip | core/src/main/java/uk/gov/gchq/koryphe/impl/predicate/IsA.java:75-77 | a name that loads as the class of that name is what `getType()` reports |
| ImplPredicate.SameClassAccepted | core/src/main/java/uk/gov/gchq/koryphe/impl/predicate/IsA.java:87 | an instance of the control class itself is accepted |
| ImplPredicate.SubclassesAccepted | core/src/main/java/uk/gov/gchq/koryphe/impl/predicate/IsA.java:87 | whatever is accepted, its subclasses are accepted too |
| ImplPredicate.UnrelatedClassRejected | core/src/main/java/uk/gov/gchq/koryphe/impl/predicate/IsA.java:87 | with a type set, an input is rejected exactly when the type is not assignable from its class |
| ImplPredicate.IsAEqualsTestAlike | core/src/main/java/uk/gov/gchq/koryphe/impl/predicate/IsA.java:100-103 | equal instances test alike |
| ImplPredicate.Platform | core/src/test/java/uk/gov/gchq/koryphe/impl/predicate/IsATest.java:36-70 | the class fragment used by the examples: every class is assignable from itself, and `Object` from every class |
| ImplPredicate.PlatformIsAPreOrder | core/src/test/java/uk/gov/gchq/koryphe/impl/predicate/IsATest.java:36-70 | that fragment is reflexive and transitive |
| ImplPredicate.IsAExamples | core/src/test/java/uk/gov/gchq/koryphe/impl/predicate/IsATest.java:36-82 | `IsA(String)` accepts a string and null and rejects an integer; `IsA(Number)` accepts an integer |
| ImplPredicate.Sources | core/src/main/java/uk/gov/gchq/koryphe/impl/predicate/MultiRegex.java:120-128 | one source string per pattern, in order |
| ImplPredicate.MultiRegex.constructor | core/src/main/java/uk/gov/gchq/koryphe/impl/predicate/MultiRegex.java:44-46 | no patterns |
| ImplPredicate.MultiRegex.WithPatterns | core/src/main/java/uk/gov/gchq/koryphe/impl/predicate/MultiRegex.java:48-50 | a fresh copy of the given patterns, or none for null |
| ImplPredicate.MultiRegex.GetPatterns | core/src/main/java/uk/gov/gchq/koryphe/impl/predicate/MultiRegex.java:54-56 | a fresh copy of the stored patterns |
| ImplPredicate.MultiRegex.SetPatterns | core/src/main/java/uk/gov/gchq/koryphe/impl/predicate/MultiRegex.java:58-64 | stores a fresh copy of the given patterns, or none for null |
| ImplPredicate.MultiRegex.Test | core/src/main/java/uk/gov/gchq/koryphe/impl/predicate/MultiRegex.java:66-77 | true exactly when the input is non-null and some stored pattern matches it |
| ImplPredicate.MultiRegex.Equals | core/src/main/java/uk/gov/gchq/koryphe/impl/predicate/MultiRegex.java:79-94 | reflexive; otherwise equal exactly when the pattern lists have the same length and the same source at every position |
| ImplPredicate.CopyOf | core/src/main/java/uk/gov/gchq/koryphe/impl/predicate/MultiRegex.java:60 | `Arrays.copyOf`: a fresh array with the same elements |
| ImplPredicate.PatternsToStrings | core/src/main/java/uk/gov/gchq/koryphe/impl/predicate/MultiRegex.java:120-128 | the sources of the patterns, in order |
| ImplPredicate.SourcesSnoc | core/src/main/java/uk/gov/gchq/koryphe/impl/predicate/MultiRegex.java:123-125 | adding a pattern adds its source at the end |
| ImplPredicate.AnyMatchesIgnoresOrder | core/src/main/java/uk/gov/gchq/koryphe/impl/predicate/MultiRegex.java:71-76 | reordering the patterns never changes a `test` result |
| ImplPredicate.NoPatternsRejectAll | core/src/main/java/uk/gov/gchq/koryphe/impl/predicate/MultiRegex.java:71-76 | with no patterns every input is rejected |
| ImplPredicate.EqualsIgnoresFlags | core/src/main/java/uk/gov/gchq/koryphe/impl/predicate/MultiRegex.java:89-93 | predicates whose patterns have the same sources are equal, whatever the flags |
| ImplPredicate.SetPatternsCopies | core/src/main/java/uk/gov/gchq/koryphe/impl/predicate/MultiRegex.java:58-64 | writing to the caller's array after `setPatterns` leaves the stored patterns unchanged |

## Left out

- Jackson annotations and JSON round-trips, `hashCode`, `toString`, the `@Since`/`@Summary` annotations and the SLF4J logging helpers of `ValidationResult` (`logErrors` to `logTrace`): framework plumbing with no behaviour to prove.
- `System.lineSeparator()`: the platform separator is the parameter `lineSeparator` of `GetErrorString`.
- Null messages in `addError` and a null argument to `add`: messages are non-null strings and references are non-null. Only the optional extra message of `add(v, msg)` may be null.
- Koryphe.ValidationResult.GetErrors: the Java getter returns the live `LinkedHashSet`. Mutation by callers is outside the model, and the invariant `Valid()` (invalid exactly when errors are non-empty) assumes there is none.
- ImplFunction.CsvToMaps.SetHeader: Java `setHeader(null)` first clears the header and then throws `NullPointerException` in `addAll`, leaving the header empty. The model takes a non-null list and does not capture this.
- The `Adapted` base class, with `setOutputAdapter`, `adaptOutput` and its `equals`, is not part of this model. Its behaviour is assumed: output adapters are stored as given, applied as in `BinaryOperator.AdaptOutput`, and compared in `equals`.
- The `Tuple` interface and `Tuple2` to `Tuple5` are not part of this model. `MapTuple` stands for a tuple whose `put` overwrites one slot. The tuples of `TupleN` are plain values.
- `KorypheFunctionN`, `KoryphePredicateN` and the null handling of `KorypheBinaryOperator.apply` around `_apply` are not part of this model. `StringConcat.Apply` and `Aggregate` model `_apply` alone.
- Adapted.InputAdapted.Equals: stated on Dafny function values, whose equality is extensional, while Java compares the adapter objects with their own `equals`. So the equalities are ghost predicates, and their lemmas hold for any `equals` that implies same behaviour.
- TupleOutputAdapter `equals`/`hashCode` (element-wise projection equality) are not modelled: they are outside the operations listed for this class.
- The Apache Commons CSV parser, `getCsvFormat` and `IterableUtil.limit`/`map` are a parameter `parse` of `CsvToMaps.Apply`. It receives the settings and returns the records past `firstRow`, or fails (the `IOException` case).
- ImplFunction.CsvToMaps.Apply: the Java result is a lazily mapped iterable, whose extraction errors surface only when a record is reached. The model gives the list of per-record results, each its own `Result`, so the order of failures during iteration is not captured. The model also reads `header` when `apply` is called, while the Java mapping reads it only when each record is reached, so a `setHeader` between `apply` and iteration changes the Java result but not the model's.
- `Class.forName` and `SimpleClassNameIdResolver.getClassName` in `IsA.setType` are a parameter `forName`. `Class.isAssignableFrom` is a parameter `assignable`, assumed a pre-order where the lemmas need it. A class is known by its binary name (`JClass`), so `IsA.Equals` compares names where Java compares `Class` objects. That is the same for classes from one class loader; classes of one name from two loaders are not modelled.
- `Pattern.matcher(input).matches()` is a parameter `matches`. Null elements inside a pattern array (a `NullPointerException` in `test` and `equals`) are not modelled.
- The `Double` and `Float` hooks of `NumericAggregateFunction` run on IEEE 754 bit patterns kept opaque. No floating-point arithmetic is modelled, only the dispatch.
- `Signature`-based generic type recovery, `InDateRangeDual`, `StringRegexReplace`, `ToDateString` and the test classes whose sources are not shown are not part of this model.
