/**
 * Property types, boxed property values, the exceptions the compiler can raise,
 * and the two .NET conversions it relies on: `Convert.ChangeType` (which parses
 * with `Int32.Parse` and prints with `Int32.ToString`) and `Nullable.GetUnderlyingType`.
 */
module Values {
  import opened Wrappers

  /** The declared type of a property: `string`, `int` (32 bits) or `Nullable<T>`. */
  datatype PropType = Str | Int | Nullable(underlying: PropType)

  /** `Nullable<T>` only wraps a non-nullable value type; here that is `int`. */
  predicate WellFormedType(t: PropType) {
    match t
    case Nullable(u) => u == Int
    case _ => true
  }

  /** `Nullable.GetUnderlyingType(t) ?? t`. */
  function Underlying(t: PropType): PropType {
    if t.Nullable? then t.underlying else t
  }

  /** `Type.IsValueType`: every type here except `string` (a `Nullable<T>` is a struct). */
  predicate IsValueType(t: PropType) {
    !t.Str?
  }

  /** A boxed property value as `GetValue` returns it; `Null` is the C# `null`. */
  datatype Value = Null | StrV(s: string) | IntV(i: int)

  /** The exceptions the modelled code can throw, by the .NET call that throws them. */
  datatype Error =
    | FormatError                   // Int32.Parse: text is not an integer
    | OverflowError                 // Int32.Parse: integer outside the 32-bit range
    | InvalidCast                   // Convert.ChangeType: no conversion to the requested type
    | PropertyNotDefined(name: string) // Expression.Property: the target type has no such property
    | MethodNotDefined(methodName: string) // Expression.Call: the property's type has no such method
    | ConstantTypeMismatch          // Expression.Constant: the value is not of the given type
    | OperatorNotDefined            // Expression.GreaterThanOrEqual / LessThanOrEqual / Equal
    | NoElements                    // Enumerable.Aggregate over an empty sequence

  const MinInt32: int := -0x8000_0000
  const MaxInt32: int := 0x7FFF_FFFF

  predicate InInt32(n: int) {
    MinInt32 <= n <= MaxInt32
  }

  /** The value can be stored in a property of type `t`. */
  predicate HasType(v: Value, t: PropType) {
    match t
    case Str => v.Null? || v.StrV?
    case Int => v.IntV? && InInt32(v.i)
    case Nullable(u) => v.Null? || HasType(v, u)
  }

  /**
   * The value a property holds in a freshly created instance
   * (`Activator.CreateInstance`): `null` for reference and nullable types, 0 for `int`.
   */
  function Default(t: PropType): (v: Value)
    requires WellFormedType(t)
    ensures HasType(v, t)
    ensures v.Null? <==> t != Int
    ensures t == Int ==> v == IntV(0)
  {
    if t == Int then IntV(0) else Null
  }

  // ---------------------------------------------------------------------------
  // Int32.Parse(s, NumberStyles.Integer) and Int32.ToString()
  // ---------------------------------------------------------------------------

  /** White space that NumberStyles.AllowLeadingWhite/AllowTrailingWhite skip: U+0009..U+000D and U+0020. */
  predicate IsWhite(c: char) {
    c == ' ' || '\t' <= c <= '\r'
  }

  predicate IsDigit(c: char) {
    '0' <= c <= '9'
  }

  predicate AllDigits(ds: string) {
    forall i | 0 <= i < |ds| :: IsDigit(ds[i])
  }

  /** `s` without its leading white space. */
  function TrimStart(s: string): (t: string)
    ensures |t| <= |s| && t == s[|s| - |t|..]
    ensures forall i | 0 <= i < |s| - |t| :: IsWhite(s[i])
    ensures t == [] || !IsWhite(t[0])
  {
    if s != [] && IsWhite(s[0]) then TrimStart(s[1..]) else s
  }

  /** `s` without its trailing white space. */
  function TrimEnd(s: string): (t: string)
    ensures |t| <= |s| && t == s[..|t|]
    ensures forall i | |t| <= i < |s| :: IsWhite(s[i])
    ensures t == [] || !IsWhite(t[|t| - 1])
  {
    if s != [] && IsWhite(s[|s| - 1]) then TrimEnd(s[..|s| - 1]) else s
  }

  /** The number a string of decimal digits denotes, most significant digit first. */
  function DigitsValue(ds: string): nat
    requires AllDigits(ds)
  {
    if ds == [] then 0 else DigitsValue(ds[..|ds| - 1]) * 10 + (ds[|ds| - 1] as int - '0' as int)
  }

  /** `s` without its trailing run of `'\0'` characters. */
  function TrimNuls(s: string): (t: string)
    ensures |t| <= |s| && t == s[..|t|]
    ensures forall i | |t| <= i < |s| :: s[i] == '\0'
    ensures t == [] || t[|t| - 1] != '\0'
  {
    if s != [] && s[|s| - 1] == '\0' then TrimNuls(s[..|s| - 1]) else s
  }

  /**
   * `Int32.Parse(s)` with the invariant culture: optional leading white space,
   * an optional `+` or `-`, at least one decimal digit, optional trailing white space,
   * and then any number of `'\0'` characters, which .NET's number parser skips at the end.
   */
  function ParseInt(s: string): (r: Result<int, Error>)
    ensures r.Ok? ==> InInt32(r.value)
    ensures r.Err? ==> r.error == FormatError || r.error == OverflowError
  {
    ParseTrimmed(TrimEnd(TrimNuls(TrimStart(s))))
  }

  /** `Int32.Parse` once the surrounding white space is gone: a sign, then digits. */
  function ParseTrimmed(t: string): Result<int, Error> {
    var negative := t != [] && t[0] == '-';
    var digits := if t != [] && (t[0] == '-' || t[0] == '+') then t[1..] else t;
    if digits == [] || !AllDigits(digits) then Err(FormatError)
    else
      var n: int := if negative then 0 - DigitsValue(digits) else DigitsValue(digits);
      if InInt32(n) then Ok(n) else Err(OverflowError)
  }

  function DigitChar(d: nat): char
    requires d < 10
  {
    ('0' as int + d) as char
  }

  /** The shortest decimal representation of `n`. */
  function NatDigits(n: nat): (ds: string)
    ensures ds != [] && AllDigits(ds)
  {
    if n < 10 then [DigitChar(n)] else NatDigits(n / 10) + [DigitChar(n % 10)]
  }

  /** `Int32.ToString()` with the invariant culture. */
  function FormatInt(n: int): string {
    if n < 0 then "-" + NatDigits(-n) else NatDigits(n)
  }

  lemma {:induction false} NatDigitsValue(n: nat)
    ensures DigitsValue(NatDigits(n)) == n
  {
    if n >= 10 {
      NatDigitsValue(n / 10);
      var ds := NatDigits(n);
      assert ds[..|ds| - 1] == NatDigits(n / 10);
    }
  }

  /**
   * A string that neither starts nor ends with white space, nor ends with `'\0'`, is
   * left alone by trimming.
   */
  lemma Unpadded(s: string)
    requires s != [] && !IsWhite(s[0]) && !IsWhite(s[|s| - 1]) && s[|s| - 1] != '\0'
    ensures TrimEnd(TrimNuls(TrimStart(s))) == s
  {
    assert TrimStart(s) == s;
  }

  /** Parsing what `Int32.ToString()` printed gives back the number. */
  lemma ParseFormatInt(n: int)
    requires InInt32(n)
    ensures ParseInt(FormatInt(n)) == Ok(n)
  {
    FormatIntUnpadded(n);
    ParseTrimmedFormatInt(n);
  }

  /** What `Int32.ToString()` prints has nothing for trimming to remove. */
  lemma FormatIntUnpadded(n: int)
    ensures TrimEnd(TrimNuls(TrimStart(FormatInt(n)))) == FormatInt(n)
  {
    var m: nat := if n < 0 then -n else n;
    var ds := NatDigits(m);
    var s := FormatInt(n);
    assert s[|s| - 1] == ds[|ds| - 1] && IsDigit(ds[|ds| - 1]);
    assert s[0] == '-' || s[0] == ds[0];
    assert IsDigit(ds[0]);
    Unpadded(s);
  }

  /** The sign and digits `Int32.ToString()` prints denote the number. */
  lemma ParseTrimmedFormatInt(n: int)
    requires InInt32(n)
    ensures ParseTrimmed(FormatInt(n)) == Ok(n)
  {
    var m: nat := if n < 0 then -n else n;
    var ds := NatDigits(m);
    NatDigitsValue(m);
    var s := FormatInt(n);
    if n < 0 {
      assert s[0] == '-' && s[1..] == ds;
    } else {
      assert s == ds && IsDigit(s[0]);
    }
  }

  /** White space before the text never changes what `Int32.Parse` returns. */
  lemma ParseIgnoresLeadingWhite(s: string, pad: char)
    requires IsWhite(pad)
    ensures ParseInt([pad] + s) == ParseInt(s)
  {
    assert ([pad] + s)[1..] == s;
    assert TrimStart([pad] + s) == TrimStart(s);
  }

  /** A `'\0'` after the text never changes what `Int32.Parse` returns. */
  lemma ParseIgnoresTrailingNul(s: string)
    ensures ParseInt(s + ['\0']) == ParseInt(s)
  {
    var t := TrimStart(s);
    assert TrimStart(s + ['\0']) == t + ['\0'] by {
      TrimStartAppend(s, '\0');
    }
    assert TrimNuls(t + ['\0']) == TrimNuls(t) by {
      TrimNulsAppend(t);
    }
  }

  /** One more `'\0'` at the end is trimmed away with the rest. */
  lemma TrimNulsAppend(t: string)
    ensures TrimNuls(t + ['\0']) == TrimNuls(t)
  {
    assert (t + ['\0'])[..|t|] == t;
  }

  /** Leading white space is trimmed the same way when a non-white character is appended. */
  lemma {:induction false} TrimStartAppend(s: string, c: char)
    requires !IsWhite(c)
    ensures TrimStart(s + [c]) == TrimStart(s) + [c]
  {
    if s == [] {
      assert s + [c] == [c];
    } else {
      assert (s + [c])[0] == s[0];
      assert (s + [c])[1..] == s[1..] + [c];
      TrimStartAppend(s[1..], c);
    }
  }

  // ---------------------------------------------------------------------------
  // Convert.ChangeType(value, conversionType)
  // ---------------------------------------------------------------------------

  /**
   * `Convert.ChangeType(v, t)` on the values of this model. `null` converts only to a
   * reference type; nothing non-null converts to a `Nullable<T>` (the conversion table
   * has no entry for it); a string converts to `int` by `Int32.Parse` and an `int` to a
   * string by `Int32.ToString`.
   */
  function ChangeType(v: Value, t: PropType): (r: Result<Value, Error>)
    requires v.IntV? ==> InInt32(v.i)
    ensures r.Ok? ==> HasType(r.value, t)
    ensures t.Nullable? ==> r == Err(InvalidCast)
    ensures v.Null? ==> (r.Ok? <==> !IsValueType(t))
    ensures HasType(v, t) && !t.Nullable? ==> r == Ok(v)
  {
    match (v, t)
    case (_, Nullable(_)) => Err(InvalidCast)
    case (Null, Str) => Ok(Null)
    case (Null, Int) => Err(InvalidCast)
    case (StrV(_), Str) => Ok(v)
    case (StrV(s), Int) =>
      var n :- ParseInt(s);
      Ok(IntV(n))
    case (IntV(i), Str) => Ok(StrV(FormatInt(i)))
    case (IntV(_), Int) => Ok(v)
  }

  /** An `int` converted to a string converts back to the same `int`. */
  lemma ChangeTypeRoundTrip(i: int)
    requires InInt32(i)
    ensures ChangeType(IntV(i), Str).Ok?
    ensures ChangeType(ChangeType(IntV(i), Str).value, Int) == Ok(IntV(i))
  {
    ParseFormatInt(i);
  }
}
