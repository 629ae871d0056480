/** `AlinSpace.Arguments.ArgumentWrapper<T>` as kept under `Source/`: its
    implicit conversion does not throw. */
module SourceArgumentsWrapper {
  import opened Clr
  import opened Wrapping
  import ArgumentsWrapper

  /** `implicit operator T(argument)`, written `argument.Value ?? default`:
      null is replaced by `default(T)`, which is that same null, so the stored
      value comes back unchanged and nothing is thrown. */
  function Cast<T(==)>(ty: ClrType<T>, argument: ArgumentWrapper<T>): (r: T)
    ensures r == argument.value
  {
    if IsNull(ty, argument.value) then ty.dflt else argument.value
  }

  /** The two conversions named `AlinSpace.Arguments` agree wherever the
      throwing one returns, and it throws exactly on the null values this one
      passes through. */
  lemma CastVariantsAgree<T>(ty: ClrType<T>, argument: ArgumentWrapper<T>)
    ensures ArgumentsWrapper.Cast(ty, argument).Success? ==> ArgumentsWrapper.Cast(ty, argument).value == Cast(ty, argument)
    ensures ArgumentsWrapper.Cast(ty, argument).Failure? <==> IsNull(ty, Cast(ty, argument))
  {
  }
}
