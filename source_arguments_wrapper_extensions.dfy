/** `AlinSpace.Arguments.ArgumentWrapperExtensions` as kept under `Source/`:
    only the two enumerable emptiness checks. */
module SourceArgumentsWrapperExtensions {
  import opened Clr
  import opened Wrapping
  import ArgumentsWrapperExtensions

  /** `IsEmpty(argument, message = null)`: throws when `!Value.Skip(1).Any()`,
      so it passes only sequences of two or more elements. Its default message
      reads "shall not be empty". A null enumerable makes `Skip` throw. */
  function IsEmpty<E>(argument: ArgumentWrapper<Option<seq<E>>>, message: Option<string> := None): (r: Result<ArgumentWrapper<Option<seq<E>>>>)
    ensures r.Success? <==> argument.value.Some? && |argument.value.value| >= 2
    ensures r.Success? ==> r.value == argument
    ensures argument.value.None? ==> r.error == NullSourceError
    ensures argument.value.Some? && r.Failure? ==>
      r.error == ArgumentException(paramName := argument.name, message := Some(Coalesce(message, "Enumerable shall not be empty.")))
  {
    match argument.value
    case None => Failure(NullSourceError)
    case Some(s) =>
      if !Any(Skip(s, 1)) then
        Failure(ArgumentException(paramName := argument.name, message := Some(Coalesce(message, "Enumerable shall not be empty."))))
      else Success(argument)
  }

  /** `IsNotEmpty(argument, message = null)`: throws when `Value.Skip(1).Any()`,
      so it passes exactly the sequences of at most one element. */
  function IsNotEmpty<E>(argument: ArgumentWrapper<Option<seq<E>>>, message: Option<string> := None): (r: Result<ArgumentWrapper<Option<seq<E>>>>)
    ensures r.Success? <==> argument.value.Some? && |argument.value.value| <= 1
    ensures r.Success? ==> r.value == argument
    ensures argument.value.None? ==> r.error == NullSourceError
    ensures argument.value.Some? && r.Failure? ==>
      r.error == ArgumentException(paramName := argument.name, message := Some(Coalesce(message, "Enumerable shall not be empty.")))
  {
    match argument.value
    case None => Failure(NullSourceError)
    case Some(s) =>
      if Any(Skip(s, 1)) then
        Failure(ArgumentException(paramName := argument.name, message := Some(Coalesce(message, "Enumerable shall not be empty."))))
      else Success(argument)
  }

  /** For a non-null sequence exactly one of the two checks passes, and since
      both default to the same message, the exception alone does not tell
      which of them failed. */
  lemma EmptinessChecksComplementary<E>(name: Option<string>, s: Option<seq<E>>, s': Option<seq<E>>, message: Option<string>)
    ensures s.Some? ==>
      (IsEmpty(ArgumentWrapper(name, s), message).Success? <==> !IsNotEmpty(ArgumentWrapper(name, s), message).Success?)
    ensures
      && (s.Some? <==> s'.Some?)
      && IsEmpty(ArgumentWrapper(name, s), message).Failure?
      && IsNotEmpty(ArgumentWrapper(name, s'), message).Failure?
      ==>
      IsEmpty(ArgumentWrapper(name, s), message).error == IsNotEmpty(ArgumentWrapper(name, s'), message).error
  {
  }

  /** Both checks accept and reject the same sequences as their namesakes at
      the repository root, and fail with the same exception except for
      `IsEmpty`'s default message. */
  lemma AgreesWithRootVariant<E>(argument: ArgumentWrapper<Option<seq<E>>>, message: Option<string>)
    ensures IsEmpty(argument, message).Success? <==> ArgumentsWrapperExtensions.IsEmpty(argument, message).Success?
    ensures IsNotEmpty(argument, message) == ArgumentsWrapperExtensions.IsNotEmpty(argument, message)
    ensures message.Some? || argument.value.None? ==> IsEmpty(argument, message) == ArgumentsWrapperExtensions.IsEmpty(argument, message)
    ensures message.None? && argument.value.Some? && |argument.value.value| <= 1 ==>
      IsEmpty(argument, message).error.message != ArgumentsWrapperExtensions.IsEmpty(argument, message).error.message
  {
  }

  lemma ChecksAreTransparent<E(!new)>(message: Option<string>)
    ensures Transparent((w: ArgumentWrapper<Option<seq<E>>>) => IsEmpty(w, message))
    ensures Transparent((w: ArgumentWrapper<Option<seq<E>>>) => IsNotEmpty(w, message))
  {
  }
}
