/** The argument wrapper shared by the three package variants, and the
    left-to-right chaining of checks over it. */
module Wrapping {
  import opened Clr

  /** `ArgumentWrapper<TArgument>`: a get-only `Name` (which may be null) and a
      get-only `Value`. The class has no setter, so a value of this datatype
      models it exactly: once built, neither field ever changes. */
  datatype ArgumentWrapper<T> = ArgumentWrapper(name: Option<string>, value: T)

  /** `new ArgumentNullException(nameof(argument))`: what every extension
      method of every variant throws when handed a null wrapper. */
  const NullArgumentError: Exception := ArgumentNullException(Some("argument"))

  /** `new ArgumentWrapper<T>(name = null, value = default)`. */
  function Construct<T>(ty: ClrType<T>, name: Option<string> := None, value: T := ty.dflt): (w: ArgumentWrapper<T>)
    ensures w.name == name && w.value == value
  {
    ArgumentWrapper(name, value)
  }

  /** Called with no arguments, the constructor gives a nameless wrapper around `default(T)`. */
  lemma ConstructDefaults<T>(ty: ClrType<T>)
    ensures Construct(ty).name == None
    ensures Construct(ty).value == ty.dflt
  {
  }

  /** One link of a fluent chain: a check applied to a (non-null) wrapper. */
  type Check<!T> = ArgumentWrapper<T> -> Result<ArgumentWrapper<T>>

  /** A check that, when it passes, hands back the very wrapper it was given. */
  ghost predicate Transparent<T(!new)>(check: Check<T>) {
    forall w :: check(w).Success? ==> check(w).value == w
  }

  /** `w.CheckA().CheckB()...`: each check gets the wrapper the previous one
      returned; the first exception ends the chain. An empty chain is the
      wrapper itself, a one-link chain is that check, and every exception a
      chain raises is raised by one of its checks. */
  function Chain<T(!new)>(w: ArgumentWrapper<T>, checks: seq<Check<T>>): (r: Result<ArgumentWrapper<T>>)
    ensures checks == [] ==> r == Success(w)
    ensures |checks| == 1 ==> r == checks[0](w)
    ensures r.Failure? ==> exists i, v :: 0 <= i < |checks| && checks[i](v) == Failure(r.error)
    decreases |checks|
  {
    if checks == [] then Success(w)
    else match checks[0](w)
      case Failure(e) => Failure(e)
      case Success(next) =>
        var r := Chain(next, checks[1..]);
        assert r.Failure? ==> exists i, v :: 0 <= i < |checks| && checks[i](v) == Failure(r.error) by {
          if r.Failure? {
            var i, v :| 0 <= i < |checks[1..]| && checks[1..][i](v) == Failure(r.error);
            assert checks[i + 1](v) == Failure(r.error);
          }
        }
        r
  }

  ghost predicate AllTransparent<T(!new)>(checks: seq<Check<T>>) {
    forall i :: 0 <= i < |checks| ==> Transparent(checks[i])
  }

  /** A chain of transparent checks that passes returns the wrapper it started
      from, so name and value survive any number of checks. */
  lemma {:induction false} ChainPreserves<T(!new)>(w: ArgumentWrapper<T>, checks: seq<Check<T>>)
    requires AllTransparent(checks)
    ensures Chain(w, checks).Success? ==> Chain(w, checks).value == w
  {
    if checks != [] && checks[0](w).Success? {
      assert Transparent(checks[0]);
      ChainPreserves(w, checks[1..]);
    }
  }

  /** A chain of transparent checks passes exactly when every check passes on
      the original wrapper. */
  lemma {:induction false} ChainPassesIff<T(!new)>(w: ArgumentWrapper<T>, checks: seq<Check<T>>)
    requires AllTransparent(checks)
    ensures Chain(w, checks).Success? <==> forall i :: 0 <= i < |checks| ==> checks[i](w).Success?
  {
    if checks != [] {
      assert Transparent(checks[0]);
      if checks[0](w).Success? {
        ChainPassesIff(w, checks[1..]);
        forall i | 0 <= i < |checks| && (forall j :: 0 <= j < |checks[1..]| ==> checks[1..][j](w).Success?)
          ensures checks[i](w).Success?
        {
          if i > 0 { assert checks[i] == checks[1..][i - 1]; }
        }
      }
    }
  }

  /** The error of a failing chain is the error of its first failing check:
      the order of the checks decides which exception is raised. */
  lemma {:induction false} ChainFirstFailure<T(!new)>(w: ArgumentWrapper<T>, checks: seq<Check<T>>, k: nat)
    requires AllTransparent(checks)
    requires k < |checks|
    requires forall i :: 0 <= i < k ==> checks[i](w).Success?
    requires checks[k](w).Failure?
    ensures Chain(w, checks) == Failure(checks[k](w).error)
  {
    if k > 0 {
      assert Transparent(checks[0]);
      assert checks[0](w).Success?;
      assert forall i :: 0 <= i < k - 1 ==> checks[1..][i] == checks[i + 1];
      ChainFirstFailure(w, checks[1..], k - 1);
    }
  }
}
