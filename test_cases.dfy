/** Every case of the unit tests of the modelled code, one lemma per test
    file, stated over the model: a passing check is followed by the implicit
    conversion the test assigns through, a throwing one by the exception type
    the test expects. `ExtraStringCases` and `CountCases` add cases the tests
    do not cover. */
module TestCases {
  import opened Clr
  import opened Wrapping
  import FluentArgument
  import FluentWrapper
  import FluentWrapperExtensions
  import FluentExtensions
  import ArgumentsWrapper
  import ArgumentsWrapperExtensions

  /** C# `int`: not nullable, default 0. */
  const IntType: ClrType<int> := ClrType(0, false, IntToString)

  /** C# `string`: a reference type, default null. */
  function ShowString(s: Option<string>): string {
    match s case Some(t) => t case None => ""
  }
  const StringType: ClrType<Option<string>> := ClrType(None, true, ShowString)

  /** Source/AlinSpace.FluentArguments.Tests/ArgumentWrapperExtensions.cs. */
  lemma FluentWrapperExtensionsTests()
    ensures FluentWrapperExtensions.GetOrDefault(StringType, Some(FluentArgument.Wrap(Some("Test"), Some("uncheckedArgument")))) == Some("Test")
    ensures FluentWrapperExtensions.GetOrDefault(StringType, Some(FluentArgument.Wrap(None, Some("uncheckedArgument")))) == None
    ensures FluentWrapperExtensions.GetOrDefault(IntType, Some(FluentArgument.Wrap(5, Some("uncheckedArgument")))) == 5
    ensures FluentWrapperExtensions.GetOrDefault(IntType, Some(FluentArgument.Wrap(0, Some("uncheckedArgument")))) == 0
    ensures FluentWrapperExtensions.GetOrDefault(IntType, Some(FluentArgument.Wrap(0, Some("uncheckedArgument"))), 5) == 5
    ensures FluentWrapperExtensions.GetOrDefault(StringType, Some(FluentArgument.Wrap(None, Some("uncheckedArgument"))), Some("")) == Some("")
    ensures FluentWrapper.Cast(StringType, FluentWrapperExtensions.IsNotNull(StringType, Some(FluentArgument.Wrap(Some("Test"), Some("uncheckedArgument")))).value) == Some("Test")
    ensures FluentWrapperExtensions.IsNotNull(StringType, Some(FluentArgument.Wrap(None, Some("uncheckedArgument")))).error.kind == ArgumentNull
    ensures FluentWrapper.Cast(IntType, FluentWrapperExtensions.IsNotDefault(IntType, Some(FluentArgument.Wrap(5, Some("uncheckedArgument")))).value) == 5
    ensures FluentWrapperExtensions.IsNotDefault(IntType, Some(FluentArgument.Wrap(0, Some("uncheckedArgument")))).error.kind == Argument
    ensures FluentWrapper.Cast(StringType, FluentWrapperExtensions.IsFuncTrueNullary(StringType, Some(FluentArgument.Wrap(Some("Test"), Some("uncheckedArgument"))), () => true).value) == Some("Test")
    ensures FluentWrapperExtensions.IsFuncTrueNullary(StringType, Some(FluentArgument.Wrap(Some("Test"), Some("uncheckedArgument"))), () => false).error.kind == Argument
    ensures FluentWrapper.Cast(StringType, FluentWrapperExtensions.IsFuncFalseNullary(StringType, Some(FluentArgument.Wrap(Some("Test"), Some("uncheckedArgument"))), () => false).value) == Some("Test")
    ensures FluentWrapperExtensions.IsFuncFalseNullary(StringType, Some(FluentArgument.Wrap(Some("Test"), Some("uncheckedArgument"))), () => true).error.kind == Argument
  {
  }

  /** Source/AlinSpace.FluentArguments.Tests/ArgumentTests.cs, over the
      older `Extensions` class. */
  lemma ExtensionsTests()
    ensures FluentWrapper.Cast(StringType, FluentExtensions.NotNull(StringType, Some(FluentArgument.Wrap(Some("Test"), Some("uncheckedArgument")))).value) == Some("Test")
    ensures FluentExtensions.NotNull(StringType, Some(FluentArgument.Wrap(None, Some("uncheckedArgument")))).error.kind == ArgumentNull
    ensures FluentWrapper.Cast(IntType, FluentExtensions.NotDefault(IntType, Some(FluentArgument.Wrap(5, Some("uncheckedArgument")))).value) == 5
    ensures FluentExtensions.NotDefault(IntType, Some(FluentArgument.Wrap(0, Some("uncheckedArgument")))).error.kind == Argument
    ensures FluentExtensions.GetOrDefault(StringType, Some(FluentArgument.Wrap(Some("Test"), Some("uncheckedArgument")))) == Some("Test")
    ensures FluentExtensions.GetOrDefault(StringType, Some(FluentArgument.Wrap(None, Some("uncheckedArgument")))) == None
    ensures FluentExtensions.GetOrDefault(IntType, Some(FluentArgument.Wrap(5, Some("uncheckedArgument")))) == 5
    ensures FluentWrapper.Cast(StringType, FluentExtensions.Evaluate(Some(FluentArgument.Wrap(Some("Test"), Some("uncheckedArgument"))), Some(() => true)).value) == Some("Test")
    ensures FluentExtensions.Evaluate(Some(FluentArgument.Wrap(Some("Test"), Some("uncheckedArgument"))), Some(() => false)).error.kind == Argument
  {
  }

  /** Source/AlinSpace.FluentArguments.Tests/ArgumentWrapperExtensions.String.cs. */
  lemma StringTests()
    ensures FluentWrapper.Cast(StringType, FluentWrapperExtensions.IsNotEmpty(FluentArgument.Wrap(Some("Test"), Some("uncheckedArgument"))).value) == Some("Test")
    ensures FluentWrapperExtensions.IsNotEmpty(FluentArgument.Wrap(Some(""), Some("uncheckedArgument"))).error.kind == Argument
    ensures FluentWrapper.Cast(StringType, FluentWrapperExtensions.IsNotWhiteSpace(FluentArgument.Wrap(Some("Test"), Some("uncheckedArgument"))).value) == Some("Test")
    ensures FluentWrapperExtensions.IsNotWhiteSpace(FluentArgument.Wrap(Some("     "), Some("uncheckedArgument"))).error.kind == Argument
  {
    var blanks := "     ";
    assert forall i :: 0 <= i < |blanks| ==> blanks[i] == ' ';
    assert !IsWhiteSpace("Test"[0]);
  }

  /** String cases beyond the tests: white space counts as content for
      `IsNotEmpty`, "" fails `IsNotWhiteSpace`, a padded string passes it
      untrimmed, and a null string faults. */
  lemma ExtraStringCases()
    ensures FluentWrapperExtensions.IsNotEmpty(FluentArgument.Wrap(Some("     "), Some("uncheckedArgument"))).Success?
    ensures FluentWrapperExtensions.IsNotEmpty(FluentArgument.Wrap(None, Some("uncheckedArgument"))).error.kind == NullReference
    ensures FluentWrapperExtensions.IsNotWhiteSpace(FluentArgument.Wrap(Some(""), Some("uncheckedArgument"))).error.kind == Argument
    ensures FluentWrapperExtensions.IsNotWhiteSpace(FluentArgument.Wrap(Some(" Test "), Some("uncheckedArgument"))) == Success(FluentArgument.Wrap(Some(" Test "), Some("uncheckedArgument")))
  {
    assert !IsWhiteSpace(" Test "[1]);
  }

  /** AlinSpace.Arguments.Tests/ArgumentWrapperExtensions.cs, over the root
      variant; `Argument.Wrap(value, name)` is written as the constructor. */
  lemma ArgumentsWrapperExtensionsTests()
    ensures ArgumentsWrapperExtensions.GetOrDefault(StringType, Some(ArgumentWrapper(Some("uncheckedArgument"), Some("Test")))) == Success(Some("Test"))
    ensures ArgumentsWrapperExtensions.GetOrDefault(StringType, Some(ArgumentWrapper(Some("uncheckedArgument"), None))) == Success(None)
    ensures ArgumentsWrapperExtensions.GetOrDefault(IntType, Some(ArgumentWrapper(Some("uncheckedArgument"), 5))) == Success(5)
    ensures ArgumentsWrapperExtensions.GetOrDefault(IntType, Some(ArgumentWrapper(Some("uncheckedArgument"), 0))) == Success(0)
    ensures ArgumentsWrapperExtensions.GetOrDefault(IntType, Some(ArgumentWrapper(Some("uncheckedArgument"), 0)), 5) == Success(5)
    ensures ArgumentsWrapperExtensions.GetOrDefault(StringType, Some(ArgumentWrapper(Some("uncheckedArgument"), None)), Some("")) == Success(Some(""))
    ensures ArgumentsWrapper.Cast(StringType, ArgumentsWrapperExtensions.IsNotNull(StringType, Some(ArgumentWrapper(Some("uncheckedArgument"), Some("Test")))).value) == Success(Some("Test"))
    ensures ArgumentsWrapperExtensions.IsNotNull(StringType, Some(ArgumentWrapper(Some("uncheckedArgument"), None))).error.kind == ArgumentNull
    ensures ArgumentsWrapper.Cast(IntType, ArgumentsWrapperExtensions.IsNotDefault(IntType, ArgumentWrapper(Some("uncheckedArgument"), 5)).value) == Success(5)
    ensures ArgumentsWrapperExtensions.IsNotDefault(IntType, ArgumentWrapper(Some("uncheckedArgument"), 0)).error.kind == Argument
    ensures ArgumentsWrapper.Cast(StringType, ArgumentsWrapperExtensions.Is(StringType, Some(ArgumentWrapper(Some("uncheckedArgument"), Some("Test"))), Some(_ => true)).value) == Success(Some("Test"))
    ensures ArgumentsWrapperExtensions.Is(StringType, Some(ArgumentWrapper(Some("uncheckedArgument"), Some("Test"))), Some(_ => false)).error.kind == Argument
    ensures ArgumentsWrapper.Cast(StringType, ArgumentsWrapperExtensions.IsNot(StringType, Some(ArgumentWrapper(Some("uncheckedArgument"), Some("Test"))), Some(_ => false)).value) == Success(Some("Test"))
    ensures ArgumentsWrapperExtensions.IsNot(StringType, Some(ArgumentWrapper(Some("uncheckedArgument"), Some("Test"))), Some(_ => true)).error.kind == Argument
  {
  }

  /** `HasCount` cases; the tests do not cover the enumerable checks. */
  lemma CountCases()
    ensures ArgumentsWrapperExtensions.HasCount(ArgumentWrapper(None, Some([1, 2, 3])), 3).Success?
    ensures ArgumentsWrapperExtensions.HasCount(ArgumentWrapper(None, Some([1, 2])), 3).error.message == Some("Enumerable shall have 3 elements.")
    ensures ArgumentsWrapperExtensions.HasCount<int>(ArgumentWrapper(None, None), 3).error == ArgumentNullException(Some("source"))
  {
    assert IntToString(3) == "3";
    assert "Enumerable shall have " + "3" + " elements." == "Enumerable shall have 3 elements.";
  }
}
