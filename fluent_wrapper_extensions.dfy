/** `AlinSpace.FluentArguments.ArgumentWrapperExtensions` (a partial class: the
    general checks and, further down, the string checks). Each check either
    returns the wrapper it was given or throws. */
module FluentWrapperExtensions {
  import opened Clr
  import opened Wrapping
  import FluentWrapper

  // ----- GetOrDefault -----

  /** `GetOrDefault(argument, defaultValue = default)`: the fallback when the
      wrapper is null or holds `default(T)`, otherwise the stored value (through
      the implicit conversion). */
  function GetOrDefault<T(==)>(ty: ClrType<T>, argument: Option<ArgumentWrapper<T>>, defaultValue: T := ty.dflt): (r: T)
    ensures argument.Some? && !IsDefault(ty, argument.value.value) ==> r == argument.value.value
    ensures argument.None? || IsDefault(ty, argument.value.value) ==> r == defaultValue
  {
    if argument.None? || IsDefault(ty, argument.value.value) then defaultValue
    else FluentWrapper.Cast(ty, argument.value)
  }

  /** A value equal to `default(T)` is indistinguishable from a missing one:
      the result is `default(T)` only if the fallback is, and otherwise the
      result is a present value that is not `default(T)`. */
  lemma GetOrDefaultIsDefaultOnlyViaFallback<T>(ty: ClrType<T>, argument: Option<ArgumentWrapper<T>>, defaultValue: T)
    ensures IsDefault(ty, GetOrDefault(ty, argument, defaultValue)) ==> defaultValue == ty.dflt
    ensures GetOrDefault(ty, argument, defaultValue) != defaultValue ==>
      argument.Some? && GetOrDefault(ty, argument, defaultValue) == argument.value.value
  {
  }

  // ----- IsNotNull / IsNotDefault -----

  /** `IsNotNull(argument, message = null)`: a null wrapper is reported first,
      then a null value (on the wrapper's name); otherwise the same wrapper. */
  function IsNotNull<T(==)>(ty: ClrType<T>, argument: Option<ArgumentWrapper<T>>, message: Option<string> := None): (r: Result<ArgumentWrapper<T>>)
    ensures r.Success? <==> argument.Some? && !IsNull(ty, argument.value.value)
    ensures r.Success? ==> r.value == argument.value
    ensures argument.None? ==> r.error == NullArgumentError
    ensures argument.Some? && IsNull(ty, argument.value.value) ==>
      r.error == ArgumentNullException(argument.value.name, Some(Coalesce(message, "Argument value shall not be null.")))
  {
    if argument.None? then Failure(NullArgumentError)
    else if IsNull(ty, argument.value.value) then
      Failure(ArgumentNullException(
        paramName := argument.value.name,
        message := Some(Coalesce(message, "Argument value shall not be null."))))
    else Success(argument.value)
  }

  /** `IsNotDefault(argument, message = null)`: a null wrapper is reported first,
      then a value equal to `default(T)`; otherwise the same wrapper. */
  function IsNotDefault<T(==)>(ty: ClrType<T>, argument: Option<ArgumentWrapper<T>>, message: Option<string> := None): (r: Result<ArgumentWrapper<T>>)
    ensures r.Success? <==> argument.Some? && !IsDefault(ty, argument.value.value)
    ensures r.Success? ==> r.value == argument.value
    ensures argument.None? ==> r.error == NullArgumentError
    ensures argument.Some? && IsDefault(ty, argument.value.value) ==>
      r.error == ArgumentException(paramName := argument.value.name, message := Some(Coalesce(message, "Argument value must not be default.")))
  {
    if argument.None? then Failure(NullArgumentError)
    else if IsDefault(ty, argument.value.value) then
      Failure(ArgumentException(
        paramName := argument.value.name,
        message := Some(Coalesce(message, "Argument value must not be default."))))
    else Success(argument.value)
  }

  /** For a nullable type, "not null" and "not default" accept the same
      wrappers; for a value type, every present wrapper is "not null", and
      passing "not default" always implies passing "not null". */
  lemma NotNullVersusNotDefault<T>(ty: ClrType<T>, argument: Option<ArgumentWrapper<T>>, m1: Option<string>, m2: Option<string>)
    ensures ty.isNullable ==> (IsNotNull(ty, argument, m1).Success? <==> IsNotDefault(ty, argument, m2).Success?)
    ensures !ty.isNullable ==> (IsNotNull(ty, argument, m1).Success? <==> argument.Some?)
    ensures IsNotDefault(ty, argument, m2).Success? ==> IsNotNull(ty, argument, m1).Success?
  {
  }

  /** After `IsNotDefault` has passed, `GetOrDefault` ignores its fallback and
      returns the stored value. */
  lemma NotDefaultThenGetOrDefault<T>(ty: ClrType<T>, argument: Option<ArgumentWrapper<T>>, message: Option<string>, defaultValue: T)
    requires IsNotDefault(ty, argument, message).Success?
    ensures GetOrDefault(ty, Some(IsNotDefault(ty, argument, message).value), defaultValue) == argument.value.value
  {
  }

  // ----- IsFuncTrue / IsFuncFalse -----

  /** `IsFuncTrue(argument, Func<T, bool> func, message = null)`: null wrapper,
      then null function, then the function itself must return true. */
  function IsFuncTrue<T>(ty: ClrType<T>, argument: Option<ArgumentWrapper<T>>, func: Option<T -> bool>, message: Option<string> := None): (r: Result<ArgumentWrapper<T>>)
    ensures r.Success? <==> argument.Some? && func.Some? && func.value(argument.value.value)
    ensures r.Success? ==> r.value == argument.value
    ensures argument.None? ==> r.error == NullArgumentError
    ensures argument.Some? && func.None? ==> r.error == ArgumentNullException(Some("func"))
    ensures argument.Some? && func.Some? && !func.value(argument.value.value) ==>
      r.error == ArgumentException(
        paramName := argument.value.name,
        message := Some(Coalesce(message, "Function shall return true for the argument value " + ty.toString(argument.value.value) + ".")))
  {
    if argument.None? then Failure(NullArgumentError)
    else if func.None? then Failure(ArgumentNullException(Some("func")))
    else if !func.value(argument.value.value) then
      Failure(ArgumentException(
        paramName := argument.value.name,
        message := Some(Coalesce(message, "Function shall return true for the argument value " + ty.toString(argument.value.value) + "."))))
    else Success(argument.value)
  }

  /** `IsFuncFalse(argument, Func<T, bool> func, message = null)`: null wrapper,
      then null function, then the function itself must return false. */
  function IsFuncFalse<T>(ty: ClrType<T>, argument: Option<ArgumentWrapper<T>>, func: Option<T -> bool>, message: Option<string> := None): (r: Result<ArgumentWrapper<T>>)
    ensures r.Success? <==> argument.Some? && func.Some? && !func.value(argument.value.value)
    ensures r.Success? ==> r.value == argument.value
    ensures argument.None? ==> r.error == NullArgumentError
    ensures argument.Some? && func.None? ==> r.error == ArgumentNullException(Some("func"))
    ensures argument.Some? && func.Some? && func.value(argument.value.value) ==>
      r.error == ArgumentException(
        paramName := argument.value.name,
        message := Some(Coalesce(message, "Function shall return false for the argument value " + ty.toString(argument.value.value) + ".")))
  {
    if argument.None? then Failure(NullArgumentError)
    else if func.None? then Failure(ArgumentNullException(Some("func")))
    else if func.value(argument.value.value) then
      Failure(ArgumentException(
        paramName := argument.value.name,
        message := Some(Coalesce(message, "Function shall return false for the argument value " + ty.toString(argument.value.value) + "."))))
    else Success(argument.value)
  }

  /** For a present wrapper and a present function exactly one of
      `IsFuncTrue`/`IsFuncFalse` passes; when either is missing, both fail
      with the same error, the wrapper's absence taking precedence. */
  lemma FuncTrueFalseComplementary<T>(ty: ClrType<T>, argument: Option<ArgumentWrapper<T>>, func: Option<T -> bool>, m1: Option<string>, m2: Option<string>)
    ensures argument.Some? && func.Some? ==>
      (IsFuncTrue(ty, argument, func, m1).Success? <==> !IsFuncFalse(ty, argument, func, m2).Success?)
    ensures argument.None? || func.None? ==>
      && IsFuncTrue(ty, argument, func, m1).Failure?
      && IsFuncTrue(ty, argument, func, m1) == IsFuncFalse(ty, argument, func, m2)
  {
  }

  /** `IsFuncTrue(argument, Func<bool> func, message = null)`, written
      `argument.IsFuncTrue(_ => func(), message)`. The lambda is never null, so
      the null-function guard cannot fire; a null `func` would fault when
      invoked, and the parameter type excludes it. */
  function IsFuncTrueNullary<T>(ty: ClrType<T>, argument: Option<ArgumentWrapper<T>>, func: () -> bool, message: Option<string> := None): (r: Result<ArgumentWrapper<T>>)
    ensures r.Success? <==> argument.Some? && func()
    ensures r.Success? ==> r.value == argument.value
    ensures argument.None? ==> r.error == NullArgumentError
  {
    IsFuncTrue(ty, argument, Some(_ => func()), message)
  }

  /** `IsFuncFalse(argument, Func<bool> func, message = null)`, written
      `argument.IsFuncFalse(_ => func(), message)`. */
  function IsFuncFalseNullary<T>(ty: ClrType<T>, argument: Option<ArgumentWrapper<T>>, func: () -> bool, message: Option<string> := None): (r: Result<ArgumentWrapper<T>>)
    ensures r.Success? <==> argument.Some? && !func()
    ensures r.Success? ==> r.value == argument.value
    ensures argument.None? ==> r.error == NullArgumentError
  {
    IsFuncFalse(ty, argument, Some(_ => func()), message)
  }

  /** The nullary overloads raise exactly what the unary overloads raise for
      the constant function, including the value-interpolating default message. */
  lemma NullaryIsConstantUnary<T>(ty: ClrType<T>, argument: Option<ArgumentWrapper<T>>, func: () -> bool, f: T -> bool, message: Option<string>)
    requires forall v :: f(v) == func()
    ensures IsFuncTrueNullary(ty, argument, func, message) == IsFuncTrue(ty, argument, Some(f), message)
    ensures IsFuncFalseNullary(ty, argument, func, message) == IsFuncFalse(ty, argument, Some(f), message)
  {
  }

  // ----- string checks -----

  /** `IsNotEmpty(this ArgumentWrapper<string> argument, message = null)`:
      fails on a zero-length value; white space counts as content. A null
      string faults on `.Length` before any check is made. */
  function IsNotEmpty(argument: ArgumentWrapper<Option<string>>, message: Option<string> := None): (r: Result<ArgumentWrapper<Option<string>>>)
    ensures r.Success? <==> argument.value.Some? && |argument.value.value| > 0
    ensures r.Success? ==> r.value == argument
    ensures argument.value.None? ==> r.error == NullReferenceError
    ensures argument.value.Some? && r.Failure? ==> r.error == ArgumentException(
      paramName := argument.name,
      message := Some(Coalesce(message, "Argument value shall not be an empty string.")))
  {
    match argument.value
    case None => Failure(NullReferenceError)
    case Some(s) =>
      if |s| == 0 then
        Failure(ArgumentException(
          paramName := argument.name,
          message := Some(Coalesce(message, "Argument value shall not be an empty string."))))
      else Success(argument)
  }

  /** `IsNotWhiteSpace(this ArgumentWrapper<string> argument, message = null)`:
      fails when `Value.Trim()` is empty, that is when every character is white
      space (the empty string included). The trimmed string is discarded: a
      pass returns the original, untrimmed wrapper. A null string faults on
      `.Trim()`. */
  function IsNotWhiteSpace(argument: ArgumentWrapper<Option<string>>, message: Option<string> := None): (r: Result<ArgumentWrapper<Option<string>>>)
    ensures r.Success? <==> argument.value.Some? && exists i :: 0 <= i < |argument.value.value| && !IsWhiteSpace(argument.value.value[i])
    ensures r.Success? ==> r.value == argument
    ensures argument.value.None? ==> r.error == NullReferenceError
    ensures argument.value.Some? && r.Failure? ==> r.error == ArgumentException(
      paramName := argument.name,
      message := Some(Coalesce(message, "Argument value shall not only consists of white-space characters.")))
  {
    match argument.value
    case None => Failure(NullReferenceError)
    case Some(s) =>
      TrimEmptyIff(s);
      if |Trim(s)| == 0 then
        Failure(ArgumentException(
          paramName := argument.name,
          message := Some(Coalesce(message, "Argument value shall not only consists of white-space characters."))))
      else Success(argument)
  }

  /** Passing `IsNotWhiteSpace` implies passing `IsNotEmpty`, and not
      conversely: a non-empty all-white-space string passes only the latter. */
  lemma NotWhiteSpaceImpliesNotEmpty(argument: ArgumentWrapper<Option<string>>, m1: Option<string>, m2: Option<string>)
    ensures IsNotWhiteSpace(argument, m1).Success? ==> IsNotEmpty(argument, m2).Success?
    ensures argument.value.Some? && |argument.value.value| > 0 && AllWhiteSpace(argument.value.value) ==>
      IsNotEmpty(argument, m2).Success? && IsNotWhiteSpace(argument, m1).Failure?
  {
  }

  /** `Argument.Wrap(s, name).IsNotNull().IsNotWhiteSpace()` as one chain over
      `string` (a reference type whose default is null): it passes exactly the
      strings with a non-white-space character, and a null string is reported
      by `IsNotNull` on the argument's name, so the fault in `IsNotWhiteSpace`
      is never reached. */
  lemma NotNullGuardsStringChecks(ty: ClrType<Option<string>>, w: ArgumentWrapper<Option<string>>, m1: Option<string>, m2: Option<string>)
    requires ty.dflt == None && ty.isNullable
    ensures Chain(w, [(v: ArgumentWrapper<Option<string>>) => IsNotNull(ty, Some(v), m1), (v: ArgumentWrapper<Option<string>>) => IsNotWhiteSpace(v, m2)]).Success?
      <==> w.value.Some? && !AllWhiteSpace(w.value.value)
    ensures w.value.None? ==>
      Chain(w, [(v: ArgumentWrapper<Option<string>>) => IsNotNull(ty, Some(v), m1), (v: ArgumentWrapper<Option<string>>) => IsNotWhiteSpace(v, m2)])
        == Failure(ArgumentNullException(w.name, Some(Coalesce(m1, "Argument value shall not be null."))))
  {
    var checks := [(v: ArgumentWrapper<Option<string>>) => IsNotNull(ty, Some(v), m1), (v: ArgumentWrapper<Option<string>>) => IsNotWhiteSpace(v, m2)];
    assert checks[1..][1..] == [];
  }

  // ----- every check is transparent -----

  /** Each check, partially applied to everything but the wrapper, is a
      transparent link of a chain. */
  lemma ChecksAreTransparent<T(!new)>(ty: ClrType<T>, message: Option<string>, func: Option<T -> bool>, thunk: () -> bool)
    ensures Transparent((w: ArgumentWrapper<T>) => IsNotNull(ty, Some(w), message))
    ensures Transparent((w: ArgumentWrapper<T>) => IsNotDefault(ty, Some(w), message))
    ensures Transparent((w: ArgumentWrapper<T>) => IsFuncTrue(ty, Some(w), func, message))
    ensures Transparent((w: ArgumentWrapper<T>) => IsFuncFalse(ty, Some(w), func, message))
    ensures Transparent((w: ArgumentWrapper<T>) => IsFuncTrueNullary(ty, Some(w), thunk, message))
    ensures Transparent((w: ArgumentWrapper<T>) => IsFuncFalseNullary(ty, Some(w), thunk, message))
    ensures Transparent((w: ArgumentWrapper<Option<string>>) => IsNotEmpty(w, message))
    ensures Transparent((w: ArgumentWrapper<Option<string>>) => IsNotWhiteSpace(w, message))
  {
  }
}
