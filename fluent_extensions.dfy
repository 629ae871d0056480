/** `AlinSpace.FluentArguments.Extensions`: an older set of checks beside
    `ArgumentWrapperExtensions`, with no default messages. */
module FluentExtensions {
  import opened Clr
  import opened Wrapping
  import FluentWrapper
  import FluentWrapperExtensions

  /** `NotNull(argument, message = null)`: a null wrapper, then a null value,
      reported as `ArgumentNullException(argument.Name, message)`; the caller's
      message is passed as is, null included. */
  function NotNull<T(==)>(ty: ClrType<T>, argument: Option<ArgumentWrapper<T>>, message: Option<string> := None): (r: Result<ArgumentWrapper<T>>)
    ensures r.Success? <==> argument.Some? && !IsNull(ty, argument.value.value)
    ensures r.Success? ==> r.value == argument.value
    ensures argument.None? ==> r.error == NullArgumentError
    ensures argument.Some? && IsNull(ty, argument.value.value) ==>
      r.error.kind == ArgumentNull && r.error.paramName == argument.value.name && r.error.message == message
  {
    if argument.None? then Failure(NullArgumentError)
    else if IsNull(ty, argument.value.value) then Failure(ArgumentNullException(argument.value.name, message))
    else Success(argument.value)
  }

  /** `NotDefault(argument, message = null)`, as written: the failure is
      `new ArgumentException(argument.Name, message)`, whose first parameter is
      the MESSAGE, so the argument's name lands in the message slot and the
      caller's message in the parameter-name slot. */
  function NotDefault<T(==)>(ty: ClrType<T>, argument: Option<ArgumentWrapper<T>>, message: Option<string> := None): (r: Result<ArgumentWrapper<T>>)
    ensures r.Success? <==> argument.Some? && !IsDefault(ty, argument.value.value)
    ensures r.Success? ==> r.value == argument.value
    ensures argument.None? ==> r.error == NullArgumentError
    ensures argument.Some? && IsDefault(ty, argument.value.value) ==>
      r.error.kind == Argument && r.error.paramName == message && r.error.message == argument.value.name
  {
    if argument.None? then Failure(NullArgumentError)
    else if IsDefault(ty, argument.value.value) then Failure(ArgumentException(argument.value.name, message))
    else Success(argument.value)
  }

  /** `NotDefault` with the two slots in the evidently intended places. */
  function NotDefaultCorrected<T(==)>(ty: ClrType<T>, argument: Option<ArgumentWrapper<T>>, message: Option<string> := None): (r: Result<ArgumentWrapper<T>>)
    ensures r.Success? <==> argument.Some? && !IsDefault(ty, argument.value.value)
    ensures r.Success? ==> r.value == argument.value
    ensures argument.None? ==> r.error == NullArgumentError
    ensures argument.Some? && IsDefault(ty, argument.value.value) ==>
      r.error.kind == Argument && r.error.paramName == argument.value.name && r.error.message == message
  {
    if argument.None? then Failure(NullArgumentError)
    else if IsDefault(ty, argument.value.value) then Failure(ArgumentException(paramName := argument.value.name, message := message))
    else Success(argument.value)
  }

  /** The swap is observable: wrapping `0` as "count" and asking for a
      non-default value with the message "must be set" reports a parameter
      named "must be set". The corrected check differs only in the error. */
  lemma NotDefaultReportsMessageAsParamName()
    ensures NotDefault(ClrType(0, false, IntToString), Some(ArgumentWrapper(Some("count"), 0)), Some("must be set")).error.paramName
      == Some("must be set")
    ensures NotDefaultCorrected(ClrType(0, false, IntToString), Some(ArgumentWrapper(Some("count"), 0)), Some("must be set")).error.paramName
      == Some("count")
  {
  }

  /** The corrected check accepts and rejects exactly the wrappers the
      original does; they differ only in where the name and message go. */
  lemma NotDefaultCorrectedAgrees<T>(ty: ClrType<T>, argument: Option<ArgumentWrapper<T>>, message: Option<string>)
    ensures NotDefaultCorrected(ty, argument, message).Success? <==> NotDefault(ty, argument, message).Success?
    ensures NotDefaultCorrected(ty, argument, message).Success? ==>
      NotDefaultCorrected(ty, argument, message) == NotDefault(ty, argument, message)
    ensures NotDefault(ty, argument, message).Failure? ==>
      && NotDefaultCorrected(ty, argument, message).error.kind == NotDefault(ty, argument, message).error.kind
      && (argument.Some? ==>
            && NotDefaultCorrected(ty, argument, message).error.paramName == NotDefault(ty, argument, message).error.message
            && NotDefaultCorrected(ty, argument, message).error.message == NotDefault(ty, argument, message).error.paramName)
  {
  }

  /** `GetOrDefault(argument, defaultValue = default)`, a second copy of the
      method in `ArgumentWrapperExtensions`. */
  function GetOrDefault<T(==)>(ty: ClrType<T>, argument: Option<ArgumentWrapper<T>>, defaultValue: T := ty.dflt): (r: T)
    ensures argument.Some? && !IsDefault(ty, argument.value.value) ==> r == argument.value.value
    ensures argument.None? || IsDefault(ty, argument.value.value) ==> r == defaultValue
  {
    if argument.None? || IsDefault(ty, argument.value.value) then defaultValue
    else FluentWrapper.Cast(ty, argument.value)
  }

  /** Both copies of `GetOrDefault` compute the same value. */
  lemma GetOrDefaultCopiesAgree<T>(ty: ClrType<T>, argument: Option<ArgumentWrapper<T>>, defaultValue: T)
    ensures GetOrDefault(ty, argument, defaultValue) == FluentWrapperExtensions.GetOrDefault(ty, argument, defaultValue)
  {
  }

  /** `Evaluate(argument, Func<bool> evaluateFunc, message = null)`: after the
      null-wrapper guard, `evaluateFunc?.Invoke() ?? true` decides; a null
      function counts as valid. The stored value plays no part. The failure is
      `new ArgumentException(argument.Name, message)`, with the same slot swap
      as `NotDefault`. */
  function Evaluate<T>(argument: Option<ArgumentWrapper<T>>, evaluateFunc: Option<() -> bool>, message: Option<string> := None): (r: Result<ArgumentWrapper<T>>)
    ensures r.Success? <==> argument.Some? && (evaluateFunc.None? || evaluateFunc.value())
    ensures r.Success? ==> r.value == argument.value
    ensures argument.None? ==> r.error == NullArgumentError
    ensures argument.Some? && evaluateFunc.Some? && !evaluateFunc.value() ==>
      r.error.kind == Argument && r.error.paramName == message && r.error.message == argument.value.name
  {
    if argument.None? then Failure(NullArgumentError)
    else
      var isArgumentValid := match evaluateFunc case Some(f) => f() case None => true;
      if !isArgumentValid then Failure(ArgumentException(argument.value.name, message))
      else Success(argument.value)
  }

  /** `Evaluate` with the two slots in the evidently intended places. */
  function EvaluateCorrected<T>(argument: Option<ArgumentWrapper<T>>, evaluateFunc: Option<() -> bool>, message: Option<string> := None): (r: Result<ArgumentWrapper<T>>)
    ensures r.Success? <==> argument.Some? && (evaluateFunc.None? || evaluateFunc.value())
    ensures r.Success? ==> r.value == argument.value
    ensures argument.None? ==> r.error == NullArgumentError
    ensures argument.Some? && evaluateFunc.Some? && !evaluateFunc.value() ==>
      r.error.kind == Argument && r.error.paramName == argument.value.name && r.error.message == message
  {
    if argument.None? then Failure(NullArgumentError)
    else
      var isArgumentValid := match evaluateFunc case Some(f) => f() case None => true;
      if !isArgumentValid then Failure(ArgumentException(paramName := argument.value.name, message := message))
      else Success(argument.value)
  }

  /** The swap in `Evaluate` is observable: a failing function on the
      argument "count" with the message "must hold" reports a parameter named
      "must hold", where the corrected check reports "count". */
  lemma EvaluateReportsMessageAsParamName()
    ensures Evaluate(Some(ArgumentWrapper(Some("count"), 0)), Some(() => false), Some("must hold")).error.paramName
      == Some("must hold")
    ensures EvaluateCorrected(Some(ArgumentWrapper(Some("count"), 0)), Some(() => false), Some("must hold")).error.paramName
      == Some("count")
  {
  }

  /** The corrected `Evaluate` accepts and rejects exactly what the original
      does; they differ only in where the name and message go. */
  lemma EvaluateCorrectedAgrees<T>(argument: Option<ArgumentWrapper<T>>, evaluateFunc: Option<() -> bool>, message: Option<string>)
    ensures EvaluateCorrected(argument, evaluateFunc, message).Success? <==> Evaluate(argument, evaluateFunc, message).Success?
    ensures EvaluateCorrected(argument, evaluateFunc, message).Success? ==>
      EvaluateCorrected(argument, evaluateFunc, message) == Evaluate(argument, evaluateFunc, message)
    ensures Evaluate(argument, evaluateFunc, message).Failure? ==>
      && EvaluateCorrected(argument, evaluateFunc, message).error.kind == Evaluate(argument, evaluateFunc, message).error.kind
      && (argument.Some? ==>
            && EvaluateCorrected(argument, evaluateFunc, message).error.paramName == Evaluate(argument, evaluateFunc, message).error.message
            && EvaluateCorrected(argument, evaluateFunc, message).error.message == Evaluate(argument, evaluateFunc, message).error.paramName)
  {
  }

  /** `Evaluate` does not look at the value: two wrappers with the same name
      get the same verdict and, on failure, the same error. */
  lemma EvaluateIgnoresValue<T>(name: Option<string>, v1: T, v2: T, evaluateFunc: Option<() -> bool>, message: Option<string>)
    ensures Evaluate(Some(ArgumentWrapper(name, v1)), evaluateFunc, message).Success?
        <==> Evaluate(Some(ArgumentWrapper(name, v2)), evaluateFunc, message).Success?
    ensures Evaluate(Some(ArgumentWrapper(name, v1)), evaluateFunc, message).Failure? ==>
      Evaluate(Some(ArgumentWrapper(name, v1)), evaluateFunc, message).error
        == Evaluate(Some(ArgumentWrapper(name, v2)), evaluateFunc, message).error
  {
  }

  /** Within this variant, the checks of this class and their counterparts in
      `ArgumentWrapperExtensions` accept exactly the same wrappers. */
  lemma ChecksAgreeWithWrapperExtensions<T>(ty: ClrType<T>, argument: Option<ArgumentWrapper<T>>, m1: Option<string>, m2: Option<string>, f: () -> bool)
    ensures NotNull(ty, argument, m1).Success? <==> FluentWrapperExtensions.IsNotNull(ty, argument, m2).Success?
    ensures NotDefault(ty, argument, m1).Success? <==> FluentWrapperExtensions.IsNotDefault(ty, argument, m2).Success?
    ensures Evaluate(argument, Some(f), m1).Success? <==> FluentWrapperExtensions.IsFuncTrueNullary(ty, argument, f, m2).Success?
  {
  }

  lemma ChecksAreTransparent<T(!new)>(ty: ClrType<T>, message: Option<string>, evaluateFunc: Option<() -> bool>)
    ensures Transparent((w: ArgumentWrapper<T>) => NotNull(ty, Some(w), message))
    ensures Transparent((w: ArgumentWrapper<T>) => NotDefault(ty, Some(w), message))
    ensures Transparent((w: ArgumentWrapper<T>) => Evaluate(Some(w), evaluateFunc, message))
  {
  }
}
