/** `AlinSpace.FluentArguments.ArgumentWrapper<T>`: its implicit conversion back to `T`. */
module FluentWrapper {
  import opened Clr
  import opened Wrapping

  /** `implicit operator T(argumentWrap)`, written `argumentWrap.Value ?? default`.
      A null value is replaced by `default(T)`, which for a nullable `T` is that
      same null, so the conversion hands back the stored value unchanged and
      never throws. (A null wrapper would fault on `.Value`; the parameter type
      excludes it.) */
  function Cast<T(==)>(ty: ClrType<T>, argumentWrap: ArgumentWrapper<T>): (r: T)
    ensures r == argumentWrap.value
  {
    if IsNull(ty, argumentWrap.value) then ty.dflt else argumentWrap.value
  }
}
