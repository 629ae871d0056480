/** `AlinSpace.FluentArguments.Argument`: the entry point of a fluent chain. */
module FluentArgument {
  import opened Clr
  import opened Wrapping
  import FluentWrapper

  /** `Argument.Wrap(value, argumentName = null)`. The parameters come in the
      order (value, name), the reverse of the constructor's (name, value), and
      the call passes them through unswapped. Nothing is validated: any value,
      null included, is wrapped. */
  function Wrap<T>(value: T, argumentName: Option<string> := None): (w: ArgumentWrapper<T>)
    ensures w.value == value
    ensures w.name == argumentName
  {
    ArgumentWrapper(argumentName, value)
  }

  /** Without a name, the wrapper's `Name` is null. */
  lemma WrapWithoutName<T>(value: T)
    ensures Wrap(value).name == None
  {
  }

  /** Identity law: wrap a value, run it through any chain of checks that
      return their input on success, and convert back: the original value
      comes out, and the name given at wrap time is still attached. */
  lemma {:induction false} IdentityLaw<T(!new)>(ty: ClrType<T>, value: T, name: Option<string>, checks: seq<Check<T>>)
    requires AllTransparent(checks)
    ensures Chain(Wrap(value, name), checks).Success? ==>
      && FluentWrapper.Cast(ty, Chain(Wrap(value, name), checks).value) == value
      && Chain(Wrap(value, name), checks).value.name == name
  {
    ChainPreserves(Wrap(value, name), checks);
  }
}
