/** `AlinSpace.Arguments.ArgumentWrapperExtensions` (a partial class: the
    general checks and the enumerable checks). */
module ArgumentsWrapperExtensions {
  import opened Clr
  import opened Wrapping
  import ArgumentsWrapper

  // ----- GetOrDefault -----

  /** `GetOrDefault(argument, defaultValue = default)`. The success path goes
      through the throwing conversion, so the result is a `Result`; it is only
      reached when the value is not `default(T)`, hence not null, so it never
      throws. */
  function GetOrDefault<T(==)>(ty: ClrType<T>, argument: Option<ArgumentWrapper<T>>, defaultValue: T := ty.dflt): (r: Result<T>)
    ensures r.Success?
    ensures argument.Some? && !IsDefault(ty, argument.value.value) ==> r.value == argument.value.value
    ensures argument.None? || IsDefault(ty, argument.value.value) ==> r.value == defaultValue
  {
    if argument.None? || IsDefault(ty, argument.value.value) then Success(defaultValue)
    else ArgumentsWrapper.Cast(ty, argument.value)
  }

  // ----- IsNotNull / IsNotDefault -----

  /** `IsNotNull(argument, message = null)`: a null wrapper, then a null value
      (reported on the wrapper's name); otherwise the same wrapper. */
  function IsNotNull<T(==)>(ty: ClrType<T>, argument: Option<ArgumentWrapper<T>>, message: Option<string> := None): (r: Result<ArgumentWrapper<T>>)
    ensures r.Success? <==> argument.Some? && !IsNull(ty, argument.value.value)
    ensures r.Success? ==> r.value == argument.value
    ensures argument.None? ==> r.error == NullArgumentError
    ensures argument.Some? && IsNull(ty, argument.value.value) ==>
      r.error == ArgumentNullException(argument.value.name, Some(Coalesce(message, "Argument value shall not be null.")))
  {
    if argument.None? then Failure(NullArgumentError)
    else if IsNull(ty, argument.value.value) then
      Failure(ArgumentNullException(
        paramName := argument.value.name,
        message := Some(Coalesce(message, "Argument value shall not be null."))))
    else Success(argument.value)
  }

  /** After `IsNotNull` has passed, the throwing conversion returns the value. */
  lemma NotNullThenCast<T>(ty: ClrType<T>, argument: Option<ArgumentWrapper<T>>, message: Option<string>)
    requires IsNotNull(ty, argument, message).Success?
    ensures ArgumentsWrapper.Cast(ty, IsNotNull(ty, argument, message).value) == Success(argument.value.value)
  {
  }

  /** `IsNotDefault(argument, message = null)`. This variant has no null-wrapper
      guard (a null wrapper faults on `.Value`; the parameter type excludes it). */
  function IsNotDefault<T(==)>(ty: ClrType<T>, argument: ArgumentWrapper<T>, message: Option<string> := None): (r: Result<ArgumentWrapper<T>>)
    ensures r.Success? <==> !IsDefault(ty, argument.value)
    ensures r.Success? ==> r.value == argument
    ensures r.Failure? ==>
      r.error == ArgumentException(paramName := argument.name, message := Some(Coalesce(message, "Argument value shall not be default.")))
  {
    if IsDefault(ty, argument.value) then
      Failure(ArgumentException(
        paramName := argument.name,
        message := Some(Coalesce(message, "Argument value shall not be default."))))
    else Success(argument)
  }

  /** A wrapper that passes `IsNotDefault` also passes `IsNotNull`, converts
      without throwing, and `GetOrDefault` ignores its fallback for it. */
  lemma NotDefaultConsequences<T>(ty: ClrType<T>, argument: ArgumentWrapper<T>, m1: Option<string>, m2: Option<string>, defaultValue: T)
    requires IsNotDefault(ty, argument, m1).Success?
    ensures IsNotNull(ty, Some(argument), m2).Success?
    ensures ArgumentsWrapper.Cast(ty, argument) == Success(argument.value)
    ensures GetOrDefault(ty, Some(argument), defaultValue) == Success(argument.value)
  {
  }

  // ----- Is / IsNot -----

  /** `Is(argument, Predicate<T> pred, message = null)`: null wrapper, then
      null predicate, then the predicate must hold for the value. */
  function Is<T>(ty: ClrType<T>, argument: Option<ArgumentWrapper<T>>, pred: Option<T -> bool>, message: Option<string> := None): (r: Result<ArgumentWrapper<T>>)
    ensures r.Success? <==> argument.Some? && pred.Some? && pred.value(argument.value.value)
    ensures r.Success? ==> r.value == argument.value
    ensures argument.None? ==> r.error == NullArgumentError
    ensures argument.Some? && pred.None? ==> r.error == ArgumentNullException(Some("predicate"))
    ensures argument.Some? && pred.Some? && !pred.value(argument.value.value) ==>
      r.error == ArgumentException(
        paramName := argument.value.name,
        message := Some(Coalesce(message, "Predicate shall return true for the value " + ty.toString(argument.value.value) + ".")))
  {
    if argument.None? then Failure(NullArgumentError)
    else if pred.None? then Failure(ArgumentNullException(Some("predicate")))
    else if !pred.value(argument.value.value) then
      Failure(ArgumentException(
        paramName := argument.value.name,
        message := Some(Coalesce(message, "Predicate shall return true for the value " + ty.toString(argument.value.value) + "."))))
    else Success(argument.value)
  }

  /** `IsNot(argument, Predicate<T> pred, message = null)`: null wrapper,
      then null predicate, then the predicate must fail for the value. */
  function IsNot<T>(ty: ClrType<T>, argument: Option<ArgumentWrapper<T>>, pred: Option<T -> bool>, message: Option<string> := None): (r: Result<ArgumentWrapper<T>>)
    ensures r.Success? <==> argument.Some? && pred.Some? && !pred.value(argument.value.value)
    ensures r.Success? ==> r.value == argument.value
    ensures argument.None? ==> r.error == NullArgumentError
    ensures argument.Some? && pred.None? ==> r.error == ArgumentNullException(Some("predicate"))
    ensures argument.Some? && pred.Some? && pred.value(argument.value.value) ==>
      r.error == ArgumentException(
        paramName := argument.value.name,
        message := Some(Coalesce(message, "Predicate shall return false for the argument value " + ty.toString(argument.value.value) + ".")))
  {
    if argument.None? then Failure(NullArgumentError)
    else if pred.None? then Failure(ArgumentNullException(Some("predicate")))
    else if pred.value(argument.value.value) then
      Failure(ArgumentException(
        paramName := argument.value.name,
        message := Some(Coalesce(message, "Predicate shall return false for the argument value " + ty.toString(argument.value.value) + "."))))
    else Success(argument.value)
  }

  /** For a present wrapper and predicate exactly one of `Is`/`IsNot` passes;
      otherwise both fail with the same error, a null wrapper reported before
      a null pred. */
  lemma IsIsNotComplementary<T>(ty: ClrType<T>, argument: Option<ArgumentWrapper<T>>, pred: Option<T -> bool>, m1: Option<string>, m2: Option<string>)
    ensures argument.Some? && pred.Some? ==>
      (Is(ty, argument, pred, m1).Success? <==> !IsNot(ty, argument, pred, m2).Success?)
    ensures argument.None? || pred.None? ==>
      && Is(ty, argument, pred, m1).Failure?
      && Is(ty, argument, pred, m1) == IsNot(ty, argument, pred, m2)
    ensures argument.None? ==> Is(ty, argument, pred, m1).error.paramName == Some("argument")
  {
  }

  /** A passing `Is` or `IsNot` returns the same wrapper, so the conversion
      recovers the original value. */
  lemma PredicateChecksThenCast<T>(ty: ClrType<T>, argument: Option<ArgumentWrapper<T>>, pred: Option<T -> bool>, message: Option<string>)
    ensures Is(ty, argument, pred, message).Success? ==>
      ArgumentsWrapper.Cast(ty, Is(ty, argument, pred, message).value) == ArgumentsWrapper.Cast(ty, argument.value)
    ensures IsNot(ty, argument, pred, message).Success? ==>
      ArgumentsWrapper.Cast(ty, IsNot(ty, argument, pred, message).value) == ArgumentsWrapper.Cast(ty, argument.value)
  {
  }

  // ----- enumerable checks -----

  /** `IsEmpty(argument, message = null)`, as written: it throws when
      `!Value.Skip(1).Any()`, that is when the sequence has at most one
      element, so it passes only sequences of two or more elements. A null
      enumerable makes `Skip` throw. */
  function IsEmpty<E>(argument: ArgumentWrapper<Option<seq<E>>>, message: Option<string> := None): (r: Result<ArgumentWrapper<Option<seq<E>>>>)
    ensures r.Success? <==> argument.value.Some? && |argument.value.value| >= 2
    ensures r.Success? ==> r.value == argument
    ensures argument.value.None? ==> r.error == NullSourceError
    ensures argument.value.Some? && r.Failure? ==>
      r.error == ArgumentException(paramName := argument.name, message := Some(Coalesce(message, "Enumerable shall be empty.")))
  {
    match argument.value
    case None => Failure(NullSourceError)
    case Some(s) =>
      if !Any(Skip(s, 1)) then
        Failure(ArgumentException(paramName := argument.name, message := Some(Coalesce(message, "Enumerable shall be empty."))))
      else Success(argument)
  }

  /** `IsNotEmpty(argument, message = null)`, as written: it throws when
      `Value.Skip(1).Any()`, so it passes exactly the sequences of at most one
      element, the empty sequence included. */
  function IsNotEmpty<E>(argument: ArgumentWrapper<Option<seq<E>>>, message: Option<string> := None): (r: Result<ArgumentWrapper<Option<seq<E>>>>)
    ensures r.Success? <==> argument.value.Some? && |argument.value.value| <= 1
    ensures r.Success? ==> r.value == argument
    ensures argument.value.None? ==> r.error == NullSourceError
    ensures argument.value.Some? && r.Failure? ==>
      r.error == ArgumentException(paramName := argument.name, message := Some(Coalesce(message, "Enumerable shall not be empty.")))
  {
    match argument.value
    case None => Failure(NullSourceError)
    case Some(s) =>
      if Any(Skip(s, 1)) then
        Failure(ArgumentException(paramName := argument.name, message := Some(Coalesce(message, "Enumerable shall not be empty."))))
      else Success(argument)
  }

  /** For a non-null sequence exactly one of `IsEmpty`/`IsNotEmpty` passes;
      for a null one both throw the same exception. */
  lemma EmptinessChecksComplementary<E>(argument: ArgumentWrapper<Option<seq<E>>>, m1: Option<string>, m2: Option<string>)
    ensures argument.value.Some? ==> (IsEmpty(argument, m1).Success? <==> !IsNotEmpty(argument, m2).Success?)
    ensures argument.value.None? ==> IsEmpty(argument, m1) == IsNotEmpty(argument, m2)
  {
  }

  /** The inversion is observable: the empty sequence fails `IsEmpty` and
      passes `IsNotEmpty`, while a one-element sequence does the same. */
  lemma EmptinessChecksInverted<E>(name: Option<string>, x: E)
    ensures IsEmpty<E>(ArgumentWrapper(name, Some([]))).Failure?
    ensures IsNotEmpty<E>(ArgumentWrapper(name, Some([]))).Success?
    ensures IsEmpty(ArgumentWrapper(name, Some([x]))).Failure?
    ensures IsNotEmpty(ArgumentWrapper(name, Some([x]))).Success?
  {
  }

  /** `IsEmpty` as its name and default message intend: `!Value.Any()`. */
  function IsEmptyCorrected<E>(argument: ArgumentWrapper<Option<seq<E>>>, message: Option<string> := None): (r: Result<ArgumentWrapper<Option<seq<E>>>>)
    ensures r.Success? <==> argument.value.Some? && |argument.value.value| == 0
    ensures r.Success? ==> r.value == argument
    ensures argument.value.None? ==> r.error == NullSourceError
    ensures argument.value.Some? && r.Failure? ==>
      r.error == ArgumentException(paramName := argument.name, message := Some(Coalesce(message, "Enumerable shall be empty.")))
  {
    match argument.value
    case None => Failure(NullSourceError)
    case Some(s) =>
      if Any(s) then
        Failure(ArgumentException(paramName := argument.name, message := Some(Coalesce(message, "Enumerable shall be empty."))))
      else Success(argument)
  }

  /** `IsNotEmpty` as its name and default message intend: `Value.Any()`. */
  function IsNotEmptyCorrected<E>(argument: ArgumentWrapper<Option<seq<E>>>, message: Option<string> := None): (r: Result<ArgumentWrapper<Option<seq<E>>>>)
    ensures r.Success? <==> argument.value.Some? && |argument.value.value| > 0
    ensures r.Success? ==> r.value == argument
    ensures argument.value.None? ==> r.error == NullSourceError
    ensures argument.value.Some? && r.Failure? ==>
      r.error == ArgumentException(paramName := argument.name, message := Some(Coalesce(message, "Enumerable shall not be empty.")))
  {
    match argument.value
    case None => Failure(NullSourceError)
    case Some(s) =>
      if !Any(s) then
        Failure(ArgumentException(paramName := argument.name, message := Some(Coalesce(message, "Enumerable shall not be empty."))))
      else Success(argument)
  }

  /** The corrected checks are still complementary on non-null sequences,
      agree with the written ones on every sequence of two or more elements,
      and `IsEmptyCorrected` agrees with `HasCount(0)`. */
  lemma CorrectedEmptinessChecks<E>(argument: ArgumentWrapper<Option<seq<E>>>, m1: Option<string>, m2: Option<string>)
    ensures argument.value.Some? ==>
      (IsEmptyCorrected(argument, m1).Success? <==> !IsNotEmptyCorrected(argument, m2).Success?)
    ensures argument.value.Some? && |argument.value.value| >= 2 ==>
      && IsEmptyCorrected(argument, m1).Success? == !IsEmpty(argument, m1).Success?
      && IsNotEmptyCorrected(argument, m2).Success? == !IsNotEmpty(argument, m2).Success?
    ensures IsEmptyCorrected(argument, m1).Success? <==> HasCount(argument, 0, m2).Success?
  {
  }

  /** `HasCount(argument, int count, message = null)`: throws unless
      `Value.Count() == count`; the default message interpolates `count`. A
      null enumerable makes `Count` throw. */
  function HasCount<E>(argument: ArgumentWrapper<Option<seq<E>>>, count: Int32, message: Option<string> := None): (r: Result<ArgumentWrapper<Option<seq<E>>>>)
    ensures r.Success? <==> argument.value.Some? && |argument.value.value| == count
    ensures r.Success? ==> r.value == argument
    ensures argument.value.None? ==> r.error == NullSourceError
    ensures argument.value.Some? && r.Failure? ==>
      r.error == ArgumentException(
        paramName := argument.name,
        message := Some(Coalesce(message, "Enumerable shall have " + IntToString(count) + " elements.")))
  {
    match argument.value
    case None => Failure(NullSourceError)
    case Some(s) =>
      if |s| != count then
        Failure(ArgumentException(
          paramName := argument.name,
          message := Some(Coalesce(message, "Enumerable shall have " + IntToString(count) + " elements."))))
      else Success(argument)
  }

  /** A negative count is never met, at most one count is met by a given
      sequence, and a met count of two or more means the written `IsEmpty`
      passes. */
  lemma HasCountProperties<E>(argument: ArgumentWrapper<Option<seq<E>>>, c1: Int32, c2: Int32, message: Option<string>)
    ensures c1 < 0 ==> HasCount(argument, c1, message).Failure?
    ensures HasCount(argument, c1, message).Success? && HasCount(argument, c2, message).Success? ==> c1 == c2
    ensures c1 >= 2 && HasCount(argument, c1, message).Success? ==> IsEmpty(argument, message).Success?
  {
  }

  /** `Wrap(s, name).IsNotNull().HasCount(count)` as one chain over an
      enumerable (a reference type whose default is null): it passes exactly
      the sequences of `count` elements, and a null enumerable is reported by
      `IsNotNull` on the argument's name rather than by `Count` on "source". */
  lemma NotNullGuardsSequenceChecks<E(!new)>(ty: ClrType<Option<seq<E>>>, w: ArgumentWrapper<Option<seq<E>>>, count: Int32, m1: Option<string>, m2: Option<string>)
    requires ty.dflt == None && ty.isNullable
    ensures Chain(w, [(v: ArgumentWrapper<Option<seq<E>>>) => IsNotNull(ty, Some(v), m1), (v: ArgumentWrapper<Option<seq<E>>>) => HasCount(v, count, m2)]).Success?
      <==> w.value.Some? && |w.value.value| == count
    ensures w.value.None? ==>
      Chain(w, [(v: ArgumentWrapper<Option<seq<E>>>) => IsNotNull(ty, Some(v), m1), (v: ArgumentWrapper<Option<seq<E>>>) => HasCount(v, count, m2)])
        == Failure(ArgumentNullException(w.name, Some(Coalesce(m1, "Argument value shall not be null."))))
  {
    var checks := [(v: ArgumentWrapper<Option<seq<E>>>) => IsNotNull(ty, Some(v), m1), (v: ArgumentWrapper<Option<seq<E>>>) => HasCount(v, count, m2)];
    assert checks[1..][1..] == [];
  }

  lemma ChecksAreTransparent<T(!new), E(!new)>(ty: ClrType<T>, message: Option<string>, pred: Option<T -> bool>, count: Int32)
    ensures Transparent((w: ArgumentWrapper<T>) => IsNotNull(ty, Some(w), message))
    ensures Transparent((w: ArgumentWrapper<T>) => IsNotDefault(ty, w, message))
    ensures Transparent((w: ArgumentWrapper<T>) => Is(ty, Some(w), pred, message))
    ensures Transparent((w: ArgumentWrapper<T>) => IsNot(ty, Some(w), pred, message))
    ensures Transparent((w: ArgumentWrapper<Option<seq<E>>>) => IsEmpty(w, message))
    ensures Transparent((w: ArgumentWrapper<Option<seq<E>>>) => IsNotEmpty(w, message))
    ensures Transparent((w: ArgumentWrapper<Option<seq<E>>>) => HasCount(w, count, message))
  {
  }
}
