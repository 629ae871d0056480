/** Where the checks duplicated between the FluentArguments variant and the
    `AlinSpace.Arguments` variant at the repository root agree, and where
    they differ: the guard names and the default texts. */
module VariantAgreement {
  import opened Clr
  import opened Wrapping
  import FluentWrapperExtensions
  import ArgumentsWrapperExtensions

  /** `IsNotNull` is the same code in both variants, default text included. */
  lemma IsNotNullAgrees<T>(ty: ClrType<T>, argument: Option<ArgumentWrapper<T>>, message: Option<string>)
    ensures FluentWrapperExtensions.IsNotNull(ty, argument, message) == ArgumentsWrapperExtensions.IsNotNull(ty, argument, message)
  {
  }

  /** `GetOrDefault` yields the same value in both variants; the root variant's
      detour through its throwing conversion never throws. */
  lemma GetOrDefaultAgrees<T>(ty: ClrType<T>, argument: Option<ArgumentWrapper<T>>, defaultValue: T)
    ensures ArgumentsWrapperExtensions.GetOrDefault(ty, argument, defaultValue)
      == Success(FluentWrapperExtensions.GetOrDefault(ty, argument, defaultValue))
  {
  }

  /** On a present wrapper, `IsNotDefault` gives the same verdict in both
      variants, and the same exception when the caller supplies a message;
      the default texts differ ("must not" against "shall not"). */
  lemma IsNotDefaultAgrees<T>(ty: ClrType<T>, argument: ArgumentWrapper<T>, message: Option<string>)
    ensures FluentWrapperExtensions.IsNotDefault(ty, Some(argument), message).Success?
      <==> ArgumentsWrapperExtensions.IsNotDefault(ty, argument, message).Success?
    ensures message.Some? ==>
      FluentWrapperExtensions.IsNotDefault(ty, Some(argument), message) == ArgumentsWrapperExtensions.IsNotDefault(ty, argument, message)
    ensures message.None? && IsDefault(ty, argument.value) ==>
      FluentWrapperExtensions.IsNotDefault(ty, Some(argument), message).error.message
        != ArgumentsWrapperExtensions.IsNotDefault(ty, argument, message).error.message
  {
    var fluentText := "Argument value must not be default.";
    var rootText := "Argument value shall not be default.";
    assert fluentText[15] != rootText[15];
  }

  /** `IsFuncTrue`/`IsFuncFalse` and `Is`/`IsNot` give the same verdicts. A null
      wrapper raises the same exception in both; a null function is reported
      as "func" in one and "predicate" in the other; a failing function with
      the caller's message raises the same exception, and the default texts
      differ. */
  lemma PredicateChecksAgree<T>(ty: ClrType<T>, argument: Option<ArgumentWrapper<T>>, f: Option<T -> bool>, message: Option<string>)
    ensures FluentWrapperExtensions.IsFuncTrue(ty, argument, f, message).Success?
      <==> ArgumentsWrapperExtensions.Is(ty, argument, f, message).Success?
    ensures FluentWrapperExtensions.IsFuncFalse(ty, argument, f, message).Success?
      <==> ArgumentsWrapperExtensions.IsNot(ty, argument, f, message).Success?
    ensures argument.None? || (f.Some? && message.Some?) ==>
      && FluentWrapperExtensions.IsFuncTrue(ty, argument, f, message) == ArgumentsWrapperExtensions.Is(ty, argument, f, message)
      && FluentWrapperExtensions.IsFuncFalse(ty, argument, f, message) == ArgumentsWrapperExtensions.IsNot(ty, argument, f, message)
    ensures argument.Some? && f.None? ==>
      && FluentWrapperExtensions.IsFuncTrue(ty, argument, f, message).error.paramName == Some("func")
      && ArgumentsWrapperExtensions.Is(ty, argument, f, message).error.paramName == Some("predicate")
    ensures argument.Some? && f.Some? && message.None? && !f.value(argument.value.value) ==>
      FluentWrapperExtensions.IsFuncTrue(ty, argument, f, message).error.message
        != ArgumentsWrapperExtensions.Is(ty, argument, f, message).error.message
    ensures argument.Some? && f.Some? && message.None? && f.value(argument.value.value) ==>
      FluentWrapperExtensions.IsFuncFalse(ty, argument, f, message).error.message
        != ArgumentsWrapperExtensions.IsNot(ty, argument, f, message).error.message
  {
    if argument.Some? && f.Some? && message.None? {
      var shown := ty.toString(argument.value.value);
      FirstCharacter("Function shall return true for the argument value ", shown);
      FirstCharacter("Predicate shall return true for the value ", shown);
      FirstCharacter("Function shall return false for the argument value ", shown);
      FirstCharacter("Predicate shall return false for the argument value ", shown);
    }
  }

  /** An interpolated default text starts with its fixed prefix. */
  lemma FirstCharacter(prefix: string, shown: string)
    requires |prefix| > 0
    ensures (prefix + shown + ".")[0] == prefix[0]
  {
    assert (prefix + shown + ".")[0] == (prefix + shown)[0];
  }
}
