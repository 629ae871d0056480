/** The pieces of the .NET runtime that the argument checks lean on:
    nullable values and `default(T)`, the two exception types the checks raise,
    `char.IsWhiteSpace` with `string.Trim`, the LINQ `Skip`/`Any` pair and the
    decimal rendering of an `int` inside an interpolated message. */
module Clr {

  datatype Option<+T> = None | Some(value: T)

  /** `x ?? fallback` for a string that may be null. */
  function Coalesce(x: Option<string>, fallback: string): (r: string)
    ensures x.Some? ==> r == x.value
    ensures x.None? ==> r == fallback
  {
    match x
    case Some(s) => s
    case None => fallback
  }

  /** A C# `int`. */
  type Int32 = i: int | -0x8000_0000 <= i < 0x8000_0000

  /** The exception types a check can raise. `ArgumentNullException` derives
      from `ArgumentException` in .NET; here the concrete type is kept. The
      runtime raises `NullReferenceException` when a member of a null string
      is used. */
  datatype ExceptionKind = ArgumentNull | Argument | NullReference

  /** A thrown exception reduced to its type and its two string slots. A `None`
      message stands for the text the runtime supplies itself. */
  datatype Exception = Exception(kind: ExceptionKind, paramName: Option<string>, message: Option<string>)

  /** `new ArgumentNullException(paramName)` and `new ArgumentNullException(paramName, message)`,
      parameters in the .NET order. */
  function ArgumentNullException(paramName: Option<string>, message: Option<string> := None): (e: Exception)
    ensures e.kind == ArgumentNull && e.paramName == paramName && e.message == message
  {
    Exception(ArgumentNull, paramName, message)
  }

  /** `new ArgumentException(message, paramName)`, parameters in the .NET order:
      the message comes FIRST. */
  function ArgumentException(message: Option<string>, paramName: Option<string>): (e: Exception)
    ensures e.kind == Argument && e.paramName == paramName && e.message == message
  {
    Exception(Argument, paramName, message)
  }

  /** What the runtime throws when `s.Length` or `s.Trim()` is used on a null
      string: no parameter name, the runtime's own message. */
  const NullReferenceError: Exception := Exception(NullReference, None, None)

  /** What a call either returns or throws. */
  datatype Result<+R> = Success(value: R) | Failure(error: Exception)

  /** What the runtime knows about a type argument `T`: its `default(T)`, whether
      `null` is one of its values (reference types and `Nullable<U>`; then
      `default(T)` is that `null`), and how string interpolation renders a value. */
  datatype ClrType<!T> = ClrType(dflt: T, isNullable: bool, toString: T -> string)

  /** `EqualityComparer<T>.Default.Equals(v, default)`: holds for `default(T)`
      and for no other value. */
  predicate IsDefault<T(==)>(ty: ClrType<T>, v: T): (b: bool)
    ensures b <==> v == ty.dflt
  {
    v == ty.dflt
  }

  /** `v == null` for a value of type `T`: never true for a value type, and for
      a nullable type true of exactly one value, its `default(T)`. */
  predicate IsNull<T(==)>(ty: ClrType<T>, v: T): (b: bool)
    ensures !ty.isNullable ==> !b
    ensures b ==> IsDefault(ty, v)
    ensures ty.isNullable && v == ty.dflt ==> b
  {
    ty.isNullable && v == ty.dflt
  }

  /** A null value is the default value of its type, and for a nullable type
      the default value is null. */
  lemma NullIsDefault<T>(ty: ClrType<T>, v: T)
    ensures IsNull(ty, v) ==> IsDefault(ty, v)
    ensures ty.isNullable ==> (IsNull(ty, v) <==> IsDefault(ty, v))
    ensures !ty.isNullable ==> !IsNull(ty, v)
  {
  }

  // ----- strings -----

  /** `char.IsWhiteSpace`: the characters of the Unicode categories SpaceSeparator,
      LineSeparator and ParagraphSeparator, plus U+0009..U+000D and U+0085.
      Space, tab and the line breaks are white space; no ASCII letter, digit or
      punctuation character is. */
  predicate IsWhiteSpace(c: char): (b: bool)
    ensures c == ' ' || c == '\t' || c == '\n' || c == '\r' ==> b
    ensures '!' <= c <= '~' ==> !b
  {
    || c == ' '
    || ('\t' <= c <= '\r')
    || c == '\U{0085}'
    || c == '\U{00A0}'
    || c == '\U{1680}'
    || ('\U{2000}' <= c <= '\U{200A}')
    || c == '\U{2028}'
    || c == '\U{2029}'
    || c == '\U{202F}'
    || c == '\U{205F}'
    || c == '\U{3000}'
  }

  predicate AllWhiteSpace(s: string) {
    forall i :: 0 <= i < |s| ==> IsWhiteSpace(s[i])
  }

  /** `s.TrimStart()`: drops the leading white-space characters. */
  function TrimStart(s: string): (r: string)
    ensures |r| <= |s| && r == s[|s| - |r|..]
    ensures forall i :: 0 <= i < |s| - |r| ==> IsWhiteSpace(s[i])
    ensures r == [] || !IsWhiteSpace(r[0])
  {
    if |s| > 0 && IsWhiteSpace(s[0]) then TrimStart(s[1..]) else s
  }

  /** `s.TrimEnd()`: drops the trailing white-space characters. */
  function TrimEnd(s: string): (r: string)
    ensures |r| <= |s| && r == s[..|r|]
    ensures forall i :: |r| <= i < |s| ==> IsWhiteSpace(s[i])
    ensures r == [] || !IsWhiteSpace(r[|r| - 1])
  {
    if |s| > 0 && IsWhiteSpace(s[|s| - 1]) then TrimEnd(s[..|s| - 1]) else s
  }

  /** `s.Trim()`: the part of `s` left between a white-space prefix and a
      white-space suffix, neither starting nor ending with white space. */
  function Trim(s: string): (r: string)
    ensures |r| <= |s|
    ensures exists k :: 0 <= k <= |s| - |r| && r == s[k..k + |r|] && AllWhiteSpace(s[..k]) && AllWhiteSpace(s[k + |r|..])
    ensures r == [] || (!IsWhiteSpace(r[0]) && !IsWhiteSpace(r[|r| - 1]))
  {
    var t := TrimStart(s);
    var k := |s| - |t|;
    var r := TrimEnd(t);
    assert r == s[k..k + |r|] && AllWhiteSpace(s[..k]) && AllWhiteSpace(s[k + |r|..]);
    r
  }

  /** The trimmed string is empty exactly when every character is white space
      (which includes the empty string). */
  lemma {:induction false} TrimEmptyIff(s: string)
    ensures |Trim(s)| == 0 <==> AllWhiteSpace(s)
  {
    var t := TrimStart(s);
    if |t| > 0 {
      assert !IsWhiteSpace(s[|s| - |t|]);
    }
  }

  // ----- LINQ over finite sequences -----

  /** `source.Skip(n)`: what is left after the first `n` elements, nothing
      when there are fewer. A null `source` is rejected by the caller's
      `NullSourceError`. */
  function Skip<E>(source: seq<E>, n: nat): (r: seq<E>)
    ensures |r| == if n <= |source| then |source| - n else 0
    ensures n <= |source| ==> source == source[..n] + r
  {
    if n <= |source| then source[n..] else []
  }

  /** `source.Any()`: whether the sequence has an element. */
  predicate Any<E>(source: seq<E>): (b: bool)
    ensures b <==> source != []
  {
    |source| > 0
  }

  /** `new ArgumentNullException(nameof(source))`: what `Skip`, `Any` and
      `Count` throw when the enumerable itself is null. */
  const NullSourceError: Exception := ArgumentNullException(Some("source"))

  // ----- integer interpolation -----

  /** The number a string of decimal digits denotes, most significant first. */
  function DecimalValue(s: string): int {
    if s == [] then 0 else 10 * DecimalValue(s[..|s| - 1]) + (s[|s| - 1] as int - '0' as int)
  }

  /** The character for the decimal digit `d`. */
  function Digit(d: nat): (c: char)
    requires d < 10
    ensures '0' <= c <= '9'
    ensures c as int - '0' as int == d
  {
    "0123456789"[d]
  }

  /** The decimal digits of `n`, without leading zeros. */
  function NatToString(n: nat): (r: string)
    ensures |r| >= 1
    ensures forall i :: 0 <= i < |r| ==> '0' <= r[i] <= '9'
    ensures |r| > 1 ==> r[0] != '0'
    ensures DecimalValue(r) == n
  {
    if n < 10 then [Digit(n)]
    else
      var r := NatToString(n / 10) + [Digit(n % 10)];
      assert r[..|r| - 1] == NatToString(n / 10);
      r
  }

  /** `{i}` inside an interpolated string, for an `int`: a '-' for a negative
      number, then the decimal digits of its magnitude. */
  function IntToString(i: int): (r: string)
    ensures |r| >= 1
    ensures (r[0] == '-') <==> i < 0
    ensures forall k :: (if i < 0 then 1 else 0) <= k < |r| ==> '0' <= r[k] <= '9'
    ensures |r| > (if i < 0 then 2 else 1) ==> r[if i < 0 then 1 else 0] != '0'
    ensures i >= 0 ==> DecimalValue(r) == i
    ensures i < 0 ==> DecimalValue(r[1..]) == -i
  {
    if i < 0 then
      var r := "-" + NatToString(-i);
      assert r[1..] == NatToString(-i);
      r
    else NatToString(i)
  }
}
