/** `AlinSpace.Arguments.ArgumentWrapper<T>`: its implicit conversion back to
    `T`, which, unlike the other variants, throws on a null value. */
module ArgumentsWrapper {
  import opened Clr
  import opened Wrapping

  /** `implicit operator T(argument)`: throws `new ArgumentNullException("Argument has no value.")`
      when `Value` is null, otherwise returns `Value`. The one-argument
      constructor takes a PARAMETER NAME, so the text lands in `paramName`, not
      in the message, and the wrapper's own `Name` is not reported. */
  function Cast<T(==)>(ty: ClrType<T>, argument: ArgumentWrapper<T>): (r: Result<T>)
    ensures r.Failure? <==> IsNull(ty, argument.value)
    ensures r.Success? ==> r.value == argument.value
    ensures r.Failure? ==> r.error == Exception(ArgumentNull, Some("Argument has no value."), None)
  {
    if IsNull(ty, argument.value) then Failure(ArgumentNullException(Some("Argument has no value.")))
    else Success(argument.value)
  }

  /** Identity law for this variant: after any chain of transparent checks the
      conversion behaves exactly as on the original wrapper, so it yields the
      original value whenever that value is not null. */
  lemma {:induction false} IdentityLaw<T(!new)>(ty: ClrType<T>, w: ArgumentWrapper<T>, checks: seq<Check<T>>)
    requires AllTransparent(checks)
    ensures Chain(w, checks).Success? ==> Cast(ty, Chain(w, checks).value) == Cast(ty, w)
    ensures Chain(w, checks).Success? && !IsNull(ty, w.value) ==> Cast(ty, Chain(w, checks).value) == Success(w.value)
  {
    ChainPreserves(w, checks);
  }
}
