# AlinSpace.Arguments — a Dafny model of the fluent argument checks

AlinSpace.Arguments is a small C# library for checking method arguments. A
caller wraps an argument's value and name in an `ArgumentWrapper<T>`, either
with `Argument.Wrap(value, name)` or with the constructor. It then chains
extension methods such as `.IsNotNull().IsNotDefault()`. Each check returns
the same wrapper or throws an `ArgumentNullException` or `ArgumentException` (or, for a null string, a `NullReferenceException`).
At the end, an implicit conversion turns the wrapper back into a `T`.

The repository ships three near-identical variants of the library. They
differ in small ways, so each one gets its own modules:

| variant (path) | modules |
|---|---|
| `Source/AlinSpace.FluentArguments` | `FluentArgument`, `FluentWrapper`, `FluentWrapperExtensions`, `FluentExtensions` |
| `AlinSpace.Arguments` | `ArgumentsWrapper`, `ArgumentsWrapperExtensions` |
| `Source/AlinSpace.Arguments` | `SourceArgumentsWrapper`, `SourceArgumentsWrapperExtensions` |
| the two `ArgumentWrapperExtensions` classes, side by side | `VariantAgreement` |

Shared modules:

- `Clr` models the runtime pieces the checks use: `Option` for a reference that may be null, `Result` for "returns or throws", and the two exception types with their constructors' parameters in .NET order. It also holds `ClrType<T>`, which describes a type argument: its `default(T)`, whether it admits `null`, and how interpolation renders a value. Finally it defines `char.IsWhiteSpace`, `string.Trim`, LINQ `Skip`/`Any` and the rendering of an `int`. It also holds the two exceptions the runtime raises on a null value: `NullReferenceError` for a member of a null string, and `NullSourceError` (an `ArgumentNullException` on "source") for LINQ over a null enumerable.
- `Wrapping` holds the wrapper datatype. All three C# classes have the same two get-only properties and the same constructor, so one immutable datatype models all of them. The module also defines fluent chaining (`Chain`) and its laws.
- `TestCases` restates every case of the unit tests of the modelled code over the model, one lemma per test file, plus a few cases the tests do not cover (marked as such below). The root variant's string tests (AlinSpace.Arguments.Tests/ArgumentWrapperExtensions.String.cs) target a file that is not part of this model.

Some checks appear in two variants with the same code, for example `IsNotNull`, and the enumerable checks, whose two copies differ only in `IsEmpty`'s default message. The model repeats that code in each variant's module, so every variant reads on its own. Agreement lemmas state where the copies agree and where they differ:

- across variants: `VariantAgreement` (FluentArguments against the root `AlinSpace.Arguments`: `IsNotNull`, `GetOrDefault`, `IsNotDefault`, and `IsFuncTrue`/`IsFuncFalse` against `Is`/`IsNot`), `SourceArgumentsWrapperExtensions.AgreesWithRootVariant` and `SourceArgumentsWrapper.CastVariantsAgree`;
- within the FluentArguments variant, between its two extension classes: `FluentExtensions.ChecksAgreeWithWrapperExtensions` and `FluentExtensions.GetOrDefaultCopiesAgree`.

Null is modelled as follows. A null wrapper, name, message, function or predicate is `None`. A null value of a nullable type `T` is the value `ty.dflt` with `ty.isNullable` set (`Clr.IsNull`). `Clr.NullIsDefault` proves that a null value is always the default value. The string checks take a wrapper around `Option<string>`, and the enumerable checks one around `Option<seq<E>>`. With a type description whose default is `None`, `IsNotNull` and these checks therefore chain on one wrapper, as in `Wrap(s).IsNotNull().IsNotWhiteSpace()`.

A failed check is a `Failure(Exception(kind, paramName, message))`. A `None` message stands for the text the runtime supplies.

## Model

| member | source | states |
|---|---|---|
| `Clr.Coalesce` | Source/AlinSpace.FluentArguments/ArgumentWrapperExtensions.cs:46 | `message ?? text` yields the caller's message when present and the fixed text otherwise |
| `Clr.ArgumentNullException` | AlinSpace.Arguments/ArgumentWrapper.cs:39 | the (paramName, message) constructor stores its first argument as the parameter name; the one-argument form leaves the message to the runtime |
| `Clr.ArgumentException` | Source/AlinSpace.FluentArguments/Extensions.cs:40 | the positional (message, paramName) constructor stores its FIRST argument as the message |
| `Clr.IsDefault` | Source/AlinSpace.FluentArguments/ArgumentWrapperExtensions.cs:66 | `EqualityComparer<T>.Default.Equals(v, default)` holds for `default(T)` and for no other value |
| `Clr.IsNull` | Source/AlinSpace.FluentArguments/ArgumentWrapperExtensions.cs:42 | `Value == null` never holds for a value type; for a nullable type it holds exactly for `default(T)` |
| `Clr.NullIsDefault` | Source/AlinSpace.FluentArguments/ArgumentWrapper.cs:36 | a null value equals `default(T)`; for a nullable type, null and default coincide; a value type has no null |
| `Clr.IsWhiteSpace` | Source/AlinSpace.FluentArguments/ArgumentWrapperExtensions.String.cs:36 | `char.IsWhiteSpace` as used by `Trim`: space, tab, line feed and carriage return are white space; no printable ASCII character is |
| `Clr.TrimStart` | Source/AlinSpace.FluentArguments/ArgumentWrapperExtensions.String.cs:36 | the result is a suffix of the input; every dropped character is white space; the result is empty or starts with a non-white-space character |
| `Clr.TrimEnd` | Source/AlinSpace.FluentArguments/ArgumentWrapperExtensions.String.cs:36 | the result is a prefix of the input; every dropped character is white space; the result is empty or ends with a non-white-space character |
| `Clr.Trim` | Source/AlinSpace.FluentArguments/ArgumentWrapperExtensions.String.cs:36 | `s.Trim()` is a contiguous part of `s` with only white space before and after it, and it neither starts nor ends with white space |
| `Clr.TrimEmptyIff` | Source/AlinSpace.FluentArguments/ArgumentWrapperExtensions.String.cs:36 | `s.Trim()` is empty if and only if every character of `s` is white space, the empty string included |
| `Clr.Skip` | AlinSpace.Arguments/ArgumentWrapperExtensions.Enumerable.cs:23 | `Skip(n)` is what follows the first n elements (the input is those n elements followed by the result), and it is empty when n exceeds the input length |
| `Clr.Any` | AlinSpace.Arguments/ArgumentWrapperExtensions.Enumerable.cs:23 | `Any()` is true exactly for a non-empty sequence |
| `Clr.Digit` | AlinSpace.Arguments/ArgumentWrapperExtensions.Enumerable.cs:69 | the digit d renders as the character whose distance from '0' is d |
| `Clr.NatToString` | AlinSpace.Arguments/ArgumentWrapperExtensions.Enumerable.cs:69 | a natural number renders as a non-empty run of decimal digits, with no leading zero unless the number is the single digit 0, whose decimal value is the number itself |
| `Clr.IntToString` | AlinSpace.Arguments/ArgumentWrapperExtensions.Enumerable.cs:69 | `{count}` starts with '-' exactly when the count is negative; every character after any sign is a decimal digit, with no leading zero unless the magnitude is 0, and those digits have the count's magnitude as their decimal value |
| `Wrapping.Construct` | Source/AlinSpace.FluentArguments/ArgumentWrapper.cs:24-28 | the constructor stores exactly the name and value it is given |
| `Wrapping.ConstructDefaults` | Source/AlinSpace.FluentArguments/ArgumentWrapper.cs:24 | with no arguments, the name is null and the value is `default(T)` |
| `Wrapping.Chain` | Source/AlinSpace.FluentArguments/ArgumentWrapperExtensions.cs:39-49 | chained calls: an empty chain returns its wrapper, a one-link chain is that check, and every exception a chain raises is raised by one of its checks |
| `Wrapping.ChainPreserves` | Source/AlinSpace.FluentArguments/ArgumentWrapperExtensions.cs:49 | a passing chain of checks that each return their input ends with the wrapper it started from |
| `Wrapping.ChainPassesIff` | Source/AlinSpace.FluentArguments/ArgumentWrapperExtensions.cs:39-49 | such a chain passes if and only if every one of its checks passes on the original wrapper |
| `Wrapping.ChainFirstFailure` | Source/AlinSpace.FluentArguments/ArgumentWrapperExtensions.cs:49 | a failing chain throws exactly the error of its first failing check, so the order of the checks decides the exception |
| `FluentArgument.Wrap` | Source/AlinSpace.FluentArguments/Argument.cs:15-18 | `Wrap(value, name)` stores the value as `Value` and the name as `Name`, unswapped despite the constructor's reverse order; it never fails |
| `FluentArgument.WrapWithoutName` | Source/AlinSpace.FluentArguments/Argument.cs:15 | without a name, the wrapper's `Name` is null |
| `FluentArgument.IdentityLaw` | Source/AlinSpace.FluentArguments/Argument.cs:17 | wrapping, any passing chain of checks and the conversion give back the original value with the original name |
| `FluentWrapper.Cast` | Source/AlinSpace.FluentArguments/ArgumentWrapper.cs:34-37 | `Value ?? default` always returns the stored value, null included, and never throws |
| `FluentWrapperExtensions.GetOrDefault` | Source/AlinSpace.FluentArguments/ArgumentWrapperExtensions.cs:18-26 | returns the fallback when the wrapper is null or holds `default(T)`, and the stored value otherwise |
| `FluentWrapperExtensions.GetOrDefaultIsDefaultOnlyViaFallback` | Source/AlinSpace.FluentArguments/ArgumentWrapperExtensions.cs:22-25 | the result is `default(T)` only if the fallback is; a result other than the fallback is the stored value of a present wrapper |
| `FluentWrapperExtensions.IsNotNull` | Source/AlinSpace.FluentArguments/ArgumentWrapperExtensions.cs:35-50 | passes if and only if the wrapper is present and its value is not null, returning the same wrapper; a null wrapper gives ArgumentNull("argument") before the value is examined; a null value gives ArgumentNull on `Name` with the caller's message or "Argument value shall not be null." |
| `FluentWrapperExtensions.IsNotDefault` | Source/AlinSpace.FluentArguments/ArgumentWrapperExtensions.cs:59-74 | passes if and only if the wrapper is present and its value is not `default(T)`; a null wrapper gives ArgumentNull("argument"); a default value gives an ArgumentException on `Name` with the caller's message or "Argument value must not be default." |
| `FluentWrapperExtensions.NotNullVersusNotDefault` | Source/AlinSpace.FluentArguments/ArgumentWrapperExtensions.cs:42-66 | for a nullable type, IsNotNull and IsNotDefault pass the same wrappers; for a value type, IsNotNull passes every present wrapper; passing IsNotDefault implies passing IsNotNull |
| `FluentWrapperExtensions.NotDefaultThenGetOrDefault` | Source/AlinSpace.FluentArguments/ArgumentWrapperExtensions.cs:22 | after IsNotDefault passes, GetOrDefault returns the stored value whatever the fallback |
| `FluentWrapperExtensions.IsFuncTrue` | Source/AlinSpace.FluentArguments/ArgumentWrapperExtensions.cs:86-105 | checks the null wrapper, then the null function ("func"), then passes if and only if `func(Value)` is true; the failure names `Name` and carries the caller's message or a text that interpolates the value |
| `FluentWrapperExtensions.IsFuncFalse` | Source/AlinSpace.FluentArguments/ArgumentWrapperExtensions.cs:129-146 | the same guards, then passes if and only if `func(Value)` is false |
| `FluentWrapperExtensions.FuncTrueFalseComplementary` | Source/AlinSpace.FluentArguments/ArgumentWrapperExtensions.cs:97 | with a present wrapper and function, exactly one of IsFuncTrue/IsFuncFalse passes; otherwise both fail with the same error |
| `FluentWrapperExtensions.IsFuncTrueNullary` | Source/AlinSpace.FluentArguments/ArgumentWrapperExtensions.cs:115-119 | the `Func<bool>` overload passes if and only if the wrapper is present and `func()` is true, and returns the same wrapper |
| `FluentWrapperExtensions.IsFuncFalseNullary` | Source/AlinSpace.FluentArguments/ArgumentWrapperExtensions.cs:156-160 | the `Func<bool>` overload passes if and only if the wrapper is present and `func()` is false |
| `FluentWrapperExtensions.NullaryIsConstantUnary` | Source/AlinSpace.FluentArguments/ArgumentWrapperExtensions.cs:119 | each nullary overload gives exactly the result of the unary overload applied to any constant function equal to `func()` |
| `FluentWrapperExtensions.IsNotEmpty` | Source/AlinSpace.FluentArguments/ArgumentWrapperExtensions.String.cs:16-26 | passes if and only if the string is not null and has at least one character, with no trimming; a null string faults with a NullReferenceException on `.Length`; an empty one fails on `Name` with the caller's message or the fixed text |
| `FluentWrapperExtensions.IsNotWhiteSpace` | Source/AlinSpace.FluentArguments/ArgumentWrapperExtensions.String.cs:34-44 | passes if and only if the string is not null and some character is not white space, and then returns the original, untrimmed wrapper; a null string faults with a NullReferenceException on `.Trim()` |
| `FluentWrapperExtensions.NotWhiteSpaceImpliesNotEmpty` | Source/AlinSpace.FluentArguments/ArgumentWrapperExtensions.String.cs:18-36 | passing IsNotWhiteSpace implies passing IsNotEmpty; a non-empty all-white-space string passes IsNotEmpty and fails IsNotWhiteSpace |
| `FluentWrapperExtensions.NotNullGuardsStringChecks` | Source/AlinSpace.FluentArguments/ArgumentWrapperExtensions.cs:42-46 | for `string`, the chain IsNotNull then IsNotWhiteSpace passes exactly the non-null strings with a non-white-space character; a null string is reported by IsNotNull as ArgumentNull on `Name`, so the fault in IsNotWhiteSpace is never reached |
| `FluentWrapperExtensions.ChecksAreTransparent` | Source/AlinSpace.FluentArguments/ArgumentWrapperExtensions.cs:104 | every check of the class returns its input on success, so all of them may appear in the chain laws |
| `FluentExtensions.NotNull` | Source/AlinSpace.FluentArguments/Extensions.cs:17-26 | a null wrapper gives ArgumentNull("argument"); a null value gives ArgumentNull on `Name` with the caller's message passed as is, with no default text; otherwise the same wrapper |
| `FluentExtensions.NotDefault` | Source/AlinSpace.FluentArguments/Extensions.cs:34-43 | fails if and only if the wrapper is null or holds `default(T)`; the default-value error carries the caller's message as parameter name and `Name` as message |
| `FluentExtensions.NotDefaultCorrected` | Source/AlinSpace.FluentArguments/Extensions.cs:40 | the same check with `Name` as parameter name and the caller's message as message |
| `FluentExtensions.NotDefaultReportsMessageAsParamName` | Source/AlinSpace.FluentArguments/Extensions.cs:40 | wrapping 0 as "count" with message "must be set", NotDefault reports parameter "must be set" and the corrected check reports "count" |
| `FluentExtensions.NotDefaultCorrectedAgrees` | Source/AlinSpace.FluentArguments/Extensions.cs:39-42 | the corrected check passes the same wrappers as NotDefault and swaps its error's two slots back |
| `FluentExtensions.GetOrDefault` | Source/AlinSpace.FluentArguments/Extensions.cs:51-57 | returns the fallback when the wrapper is null or holds `default(T)`, and the stored value otherwise |
| `FluentExtensions.GetOrDefaultCopiesAgree` | Source/AlinSpace.FluentArguments/Extensions.cs:53 | this copy of GetOrDefault equals the one in ArgumentWrapperExtensions on every input |
| `FluentExtensions.Evaluate` | Source/AlinSpace.FluentArguments/Extensions.cs:69-82 | passes if and only if the wrapper is present and the function is null or returns true; on failure the caller's message is the parameter name and `Name` is the message |
| `FluentExtensions.EvaluateCorrected` | Source/AlinSpace.FluentArguments/Extensions.cs:79 | the same check with `Name` as parameter name and the caller's message as message |
| `FluentExtensions.EvaluateReportsMessageAsParamName` | Source/AlinSpace.FluentArguments/Extensions.cs:79 | a failing function on the argument "count" with message "must hold" makes Evaluate report parameter "must hold"; the corrected check reports "count" |
| `FluentExtensions.EvaluateCorrectedAgrees` | Source/AlinSpace.FluentArguments/Extensions.cs:76-79 | the corrected check passes the same wrappers as Evaluate and swaps its error's two slots back |
| `FluentExtensions.EvaluateIgnoresValue` | Source/AlinSpace.FluentArguments/Extensions.cs:76 | the verdict and the error do not depend on the stored value |
| `FluentExtensions.ChecksAgreeWithWrapperExtensions` | Source/AlinSpace.FluentArguments/Extensions.cs:19-39 | within the FluentArguments variant, NotNull, NotDefault and Evaluate with a non-null function pass the same wrappers as IsNotNull, IsNotDefault and the nullary IsFuncTrue of ArgumentWrapperExtensions |
| `FluentExtensions.ChecksAreTransparent` | Source/AlinSpace.FluentArguments/Extensions.cs:25 | NotNull, NotDefault and Evaluate return their input on success |
| `ArgumentsWrapper.Cast` | AlinSpace.Arguments/ArgumentWrapper.cs:36-42 | throws if and only if `Value` is null, with ArgumentNull whose parameter name is "Argument has no value." and not `Name`; otherwise returns `Value` unchanged |
| `ArgumentsWrapper.IdentityLaw` | AlinSpace.Arguments/ArgumentWrapper.cs:41 | after any passing chain, the conversion behaves as on the original wrapper and yields the original value when it is not null |
| `ArgumentsWrapperExtensions.GetOrDefault` | AlinSpace.Arguments/ArgumentWrapperExtensions.cs:19-27 | never throws, although the success path uses the throwing conversion; returns the fallback for a null wrapper or a default value, the stored value otherwise |
| `ArgumentsWrapperExtensions.IsNotNull` | AlinSpace.Arguments/ArgumentWrapperExtensions.cs:36-51 | passes if and only if the wrapper is present and its value is not null; a null wrapper gives ArgumentNull("argument"); a null value gives ArgumentNull on `Name` with the caller's message or "Argument value shall not be null." |
| `ArgumentsWrapperExtensions.NotNullThenCast` | AlinSpace.Arguments/ArgumentWrapperExtensions.cs:50 | after IsNotNull passes, the throwing conversion returns the value |
| `ArgumentsWrapperExtensions.IsNotDefault` | AlinSpace.Arguments/ArgumentWrapperExtensions.cs:60-72 | with no null-wrapper guard, passes if and only if the value is not `default(T)`; the failure names `Name` with the caller's message or "Argument value shall not be default." |
| `ArgumentsWrapperExtensions.NotDefaultConsequences` | AlinSpace.Arguments/ArgumentWrapperExtensions.cs:64 | a wrapper that passes IsNotDefault also passes IsNotNull, converts without throwing, and GetOrDefault returns its value |
| `ArgumentsWrapperExtensions.Is` | AlinSpace.Arguments/ArgumentWrapperExtensions.cs:82-101 | checks the null wrapper, then the null predicate ("predicate"), then passes if and only if `predicate(Value)` holds; the failure names `Name` and carries the caller's message or a text that interpolates the value |
| `ArgumentsWrapperExtensions.IsNot` | AlinSpace.Arguments/ArgumentWrapperExtensions.cs:111-130 | the same guards, then passes if and only if `predicate(Value)` is false |
| `ArgumentsWrapperExtensions.IsIsNotComplementary` | AlinSpace.Arguments/ArgumentWrapperExtensions.cs:93 | with a present wrapper and predicate, exactly one of Is/IsNot passes; otherwise both fail with the same error, a null wrapper reported first |
| `ArgumentsWrapperExtensions.PredicateChecksThenCast` | AlinSpace.Arguments/ArgumentWrapperExtensions.cs:100 | after a passing Is or IsNot, the conversion behaves exactly as on the original wrapper |
| `ArgumentsWrapperExtensions.IsEmpty` | AlinSpace.Arguments/ArgumentWrapperExtensions.Enumerable.cs:19-31 | as written, passes if and only if the sequence is not null and has at least two elements; a null sequence gives ArgumentNull("source") from `Skip`; otherwise the failure says "Enumerable shall be empty." unless the caller gives a message |
| `ArgumentsWrapperExtensions.IsNotEmpty` | AlinSpace.Arguments/ArgumentWrapperExtensions.Enumerable.cs:39-51 | as written, passes if and only if the sequence is not null and has at most one element, the empty sequence included; a null sequence gives ArgumentNull("source") |
| `ArgumentsWrapperExtensions.EmptinessChecksComplementary` | AlinSpace.Arguments/ArgumentWrapperExtensions.Enumerable.cs:23-43 | for every non-null sequence exactly one of IsEmpty/IsNotEmpty passes; for a null one both raise the same exception |
| `ArgumentsWrapperExtensions.EmptinessChecksInverted` | AlinSpace.Arguments/ArgumentWrapperExtensions.Enumerable.cs:23-43 | the empty and one-element sequences fail IsEmpty and pass IsNotEmpty |
| `ArgumentsWrapperExtensions.IsEmptyCorrected` | AlinSpace.Arguments/ArgumentWrapperExtensions.Enumerable.cs:23 | with `!Any()`, passes if and only if the sequence is not null and empty |
| `ArgumentsWrapperExtensions.IsNotEmptyCorrected` | AlinSpace.Arguments/ArgumentWrapperExtensions.Enumerable.cs:43 | with `Any()`, passes if and only if the sequence is not null and not empty |
| `ArgumentsWrapperExtensions.CorrectedEmptinessChecks` | AlinSpace.Arguments/ArgumentWrapperExtensions.Enumerable.cs:19-51 | the corrected checks are complementary, the opposite of the written ones on sequences of two or more elements, and IsEmptyCorrected agrees with HasCount(0) |
| `ArgumentsWrapperExtensions.HasCount` | AlinSpace.Arguments/ArgumentWrapperExtensions.Enumerable.cs:60-73 | passes if and only if the sequence is not null and has exactly `count` elements; a null sequence gives ArgumentNull("source") from `Count`; the default message interpolates the count |
| `ArgumentsWrapperExtensions.HasCountProperties` | AlinSpace.Arguments/ArgumentWrapperExtensions.Enumerable.cs:65 | a negative count always fails; at most one count passes for a sequence; a passing count of two or more implies passing the written IsEmpty |
| `ArgumentsWrapperExtensions.NotNullGuardsSequenceChecks` | AlinSpace.Arguments/ArgumentWrapperExtensions.cs:43-47 | for an enumerable, the chain IsNotNull then HasCount passes exactly the non-null sequences of `count` elements; a null sequence is reported by IsNotNull as ArgumentNull on `Name` instead of on "source" |
| `ArgumentsWrapperExtensions.ChecksAreTransparent` | AlinSpace.Arguments/ArgumentWrapperExtensions.cs:50 | every check of the class returns its input on success |
| `SourceArgumentsWrapper.Cast` | Source/AlinSpace.Arguments/ArgumentWrapper.cs:34-37 | `Value ?? default` returns the stored value, null included, and never throws |
| `SourceArgumentsWrapper.CastVariantsAgree` | Source/AlinSpace.Arguments/ArgumentWrapper.cs:36 | wherever the throwing conversion of the root variant returns, it returns this one's result; it throws exactly when this one returns null |
| `SourceArgumentsWrapperExtensions.IsEmpty` | Source/AlinSpace.Arguments/ArgumentWrapperExtensions.Enumerable.cs:19-31 | passes if and only if the sequence is not null and has at least two elements; a null sequence gives ArgumentNull("source"); the default message is "Enumerable shall not be empty." |
| `SourceArgumentsWrapperExtensions.IsNotEmpty` | Source/AlinSpace.Arguments/ArgumentWrapperExtensions.Enumerable.cs:39-51 | passes if and only if the sequence is not null and has at most one element, with the same default message |
| `SourceArgumentsWrapperExtensions.EmptinessChecksComplementary` | Source/AlinSpace.Arguments/ArgumentWrapperExtensions.Enumerable.cs:27-47 | for a non-null sequence exactly one of the two checks passes, and their default failures on sequences that are both null or both non-null are the same exception |
| `SourceArgumentsWrapperExtensions.AgreesWithRootVariant` | Source/AlinSpace.Arguments/ArgumentWrapperExtensions.Enumerable.cs:23-43 | both checks pass the same sequences as the root variant's; they differ only in IsEmpty's default message |
| `SourceArgumentsWrapperExtensions.ChecksAreTransparent` | Source/AlinSpace.Arguments/ArgumentWrapperExtensions.Enumerable.cs:30 | both checks return their input on success |
| `TestCases.FluentWrapperExtensionsTests` | Source/AlinSpace.FluentArguments.Tests/ArgumentWrapperExtensions.cs:13-231 | every test of the file: GetOrDefault gives "Test", null, 5, 0, 5 (0 with fallback 5) and "" (null with fallback ""); IsNotNull passes "Test" on to the cast and throws ArgumentNull on null; IsNotDefault passes 5 and throws an ArgumentException on 0; the nullary IsFuncTrue/IsFuncFalse pass "Test" on `() => true`/`() => false` and throw an ArgumentException on the other |
| `TestCases.ExtensionsTests` | Source/AlinSpace.FluentArguments.Tests/ArgumentTests.cs:11-139 | every test of the file: NotNull passes "Test" and throws ArgumentNull on null; NotDefault passes 5 and throws an ArgumentException on 0; GetOrDefault gives "Test", null and 5; Evaluate passes on `() => true` and throws an ArgumentException on `() => false` |
| `TestCases.StringTests` | Source/AlinSpace.FluentArguments.Tests/ArgumentWrapperExtensions.String.cs:11-65 | every test of the file: IsNotEmpty passes "Test" on to the cast and throws an ArgumentException on ""; IsNotWhiteSpace passes "Test" and throws an ArgumentException on "     " |
| `TestCases.ExtraStringCases` | Source/AlinSpace.FluentArguments/ArgumentWrapperExtensions.String.cs:16-44 | cases beyond the tests: "     " passes IsNotEmpty; a null string faults with a NullReferenceException; "" fails IsNotWhiteSpace; " Test " passes it unchanged |
| `TestCases.ArgumentsWrapperExtensionsTests` | AlinSpace.Arguments.Tests/ArgumentWrapperExtensions.cs:11-211 | every test of the file, over the root variant: GetOrDefault gives "Test", null, 5, 0, 5 and ""; IsNotNull passes "Test" and throws ArgumentNull on null; IsNotDefault passes 5 and throws an ArgumentException on 0; `_ => true` passes Is and fails IsNot, `_ => false` the reverse |
| `TestCases.CountCases` | AlinSpace.Arguments/ArgumentWrapperExtensions.Enumerable.cs:65-69 | cases beyond the tests: [1, 2, 3] has count 3; [1, 2] fails with "Enumerable shall have 3 elements."; a null sequence gives ArgumentNull("source") |
| `VariantAgreement.IsNotNullAgrees` | AlinSpace.Arguments/ArgumentWrapperExtensions.cs:36-51 | the IsNotNull of the root variant equals the FluentArguments one on every input, default text included |
| `VariantAgreement.GetOrDefaultAgrees` | AlinSpace.Arguments/ArgumentWrapperExtensions.cs:19-27 | the root GetOrDefault never throws and returns the FluentArguments GetOrDefault's value |
| `VariantAgreement.IsNotDefaultAgrees` | AlinSpace.Arguments/ArgumentWrapperExtensions.cs:60-72 | on a present wrapper both IsNotDefault checks give the same verdict and, with a caller's message, the same exception; their default texts differ |
| `VariantAgreement.PredicateChecksAgree` | AlinSpace.Arguments/ArgumentWrapperExtensions.cs:82-130 | Is/IsNot give the verdicts of IsFuncTrue/IsFuncFalse; a null wrapper, or a failing predicate with a caller's message, raises the same exception; a null predicate is named "predicate" against "func"; the default texts differ |

## Findings

| source | as written | input that shows it | evidently intended | confidence | as-written member | corrected member |
|---|---|---|---|---|---|---|
| AlinSpace.Arguments/ArgumentWrapperExtensions.Enumerable.cs:23 | `IsEmpty` throws when `!Value.Skip(1).Any()`, so it rejects `[]` and `[x]`; `IsNotEmpty` (line 43) accepts them. The same code is in Source/AlinSpace.Arguments/ArgumentWrapperExtensions.Enumerable.cs:23, 43 | an empty sequence: `IsEmpty` throws, `IsNotEmpty` passes | `IsEmpty` passes exactly the empty sequence (`!Any()`), `IsNotEmpty` exactly the non-empty ones (`Any()`) | high, not executed | `ArgumentsWrapperExtensions.EmptinessChecksInverted` | `ArgumentsWrapperExtensions.IsEmptyCorrected` |
| Source/AlinSpace.FluentArguments/Extensions.cs:40 | `new ArgumentException(argument.Name, message)` calls the (message, paramName) constructor, so the argument name becomes the message and the caller's message becomes the parameter name | `0` wrapped as "count", message "must be set": the exception names parameter "must be set" | parameter name = `Name`, message = the caller's message, as every other check in the repository passes them | medium, not executed | `FluentExtensions.NotDefaultReportsMessageAsParamName` | `FluentExtensions.NotDefaultCorrected` |
| Source/AlinSpace.FluentArguments/Extensions.cs:79 | `Evaluate` throws `new ArgumentException(argument.Name, message)`, with the same swap as line 40 | a function returning false on the argument "count", message "must hold": the exception names parameter "must hold" | parameter name = `Name`, message = the caller's message | medium, not executed | `FluentExtensions.EvaluateReportsMessageAsParamName` | `FluentExtensions.EvaluateCorrected` |

The model keeps the code as written everywhere. The corrected checks stand beside the originals and are not used by the other members. Nothing else in the library calls these checks.

## Left out

- Exception objects are reduced to their type, parameter name and message. When the runtime supplies the message text (for example "Value cannot be null."), the model's message is `None`. Stack traces, inner exceptions and the .NET message suffix " (Parameter '…')" are not modelled.
- Three `NullReferenceException` paths are excluded by the parameter types instead of being modelled as errors: a null wrapper in `AlinSpace.Arguments` `IsNotDefault` and in the string and sequence checks; a null `Func<bool>` passed to the nullary `IsFuncTrue`/`IsFuncFalse` overloads; a null wrapper given to the implicit conversions. A null string value is modelled (`NullReferenceError`), and so is a null enumerable value, for which `Skip` and `Count` throw an `ArgumentNullException` on "source" (`NullSourceError`).
- Clr.IntToString: always writes '-' for a negative count. Interpolation takes the sign from the current culture's `NumberFormatInfo.NegativeSign`; cultures are not modelled.
- Functions and predicates are total and do not throw. An exception thrown by a caller's predicate would propagate; that is not modelled.
- The runtime `ToString()` of an arbitrary `T` inside an interpolated message is a parameter of the type description (`ClrType.toString`).
- `char.IsWhiteSpace` is written out as the fixed .NET list of white-space characters. Unicode tables are not consulted.
- Enumerables are finite Dafny sequences. Lazy evaluation, repeated enumeration, infinite sequences and the `OverflowException` of `Count()` beyond `int.MaxValue` are not modelled.
- Equality with `default(T)` is Dafny equality. A user-defined `Equals` consulted by `EqualityComparer<T>.Default` is not modelled.
- Immutability of the wrappers has no lemma of its own: the wrapper is a Dafny datatype value, which cannot change after construction.
- The commented-out comparison checks in Source/AlinSpace.FluentArguments/ArgumentWrapperExtensions.cs (`IsBiggerThan`, `IsSmallerThan`, `IsNegative`, `IsPositive` and others) are not compiled, so they are not modelled.
- `Argument.Wrap` for the `AlinSpace.Arguments` variants is used by its tests, but its source file is not part of this model.
