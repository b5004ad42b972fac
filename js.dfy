/**
 * The slice of JavaScript value semantics that the task manager's logic leans on:
 * properties that may be missing or null, truthiness, strict equality, `parseInt`,
 * `String(n)`, `toLowerCase`, `includes`, `trim` and the `<` order on strings.
 */
module Js {

  datatype Option<T> = None | Some(value: T)

  /** The outcome of an operation that can throw: its value, or the thrown error's message. */
  datatype Result<T> = Ok(value: T) | Err(message: string)

  /** An object property: missing (`undefined`), explicitly `null`, or a value. */
  datatype Field<T> = Absent | Null | Val(v: T)

  /** The primitive values the code passes around as ids and filter values. */
  datatype Scalar = Num(n: int) | Str(s: string)

  /** A non-null value where an array is expected: an array, or anything else (a FileList, one object, a string). */
  datatype MaybeArray<T> = Array(items: seq<T>) | NonArray

  /** `Array.isArray(x)`. */
  predicate IsArray<T>(x: Field<MaybeArray<T>>)
  {
    x.Val? && x.v.Array?
  }

  /** The elements of x when it is an array, else none. */
  function Items<T>(x: Field<MaybeArray<T>>): seq<T>
  {
    if IsArray(x) then x.v.items else []
  }

  /** One property of `{...base, ...top}`: top's when top has it. */
  function Over<T>(base: Field<T>, top: Field<T>): Field<T>
  {
    if top.Absent? then base else top
  }

  /** JavaScript truthiness of a primitive-valued property. */
  predicate Truthy(x: Field<Scalar>)
  {
    match x
    case Val(Num(n)) => n != 0
    case Val(Str(s)) => s != ""
    case _ => false
  }

  /** JavaScript truthiness of a string-valued property. */
  predicate TruthyStr(x: Field<string>)
  {
    x.Val? && x.v != ""
  }

  /** Widens an integer property to a primitive-valued one. */
  function AsScalar(x: Field<int>): Field<Scalar>
  {
    match x
    case Absent => Absent
    case Null => Null
    case Val(n) => Val(Num(n))
  }

  // ---------------------------------------------------------------------------
  // Characters and case

  /** ECMAScript's StrWhiteSpaceChar: WhiteSpace and LineTerminator code points. */
  predicate IsWhitespace(c: char)
  {
    var n := c as int;
    (9 <= n <= 13) || n == 0x20 || n == 0xA0 || n == 0x1680 || (0x2000 <= n <= 0x200A) ||
    n == 0x2028 || n == 0x2029 || n == 0x202F || n == 0x205F || n == 0x3000 || n == 0xFEFF
  }

  function ToLowerChar(c: char): char
  {
    if 'A' <= c <= 'Z' then (c as int + 32) as char else c
  }

  /** `s.toLowerCase()`, for the ASCII letters. */
  function ToLower(s: string): (r: string)
    ensures |r| == |s|
  {
    seq(|s|, i requires 0 <= i < |s| => ToLowerChar(s[i]))
  }

  lemma ToLowerIdempotent(s: string)
    ensures ToLower(ToLower(s)) == ToLower(s)
  {
  }

  /** `s.includes(q)`: q occurs in s as a contiguous block. */
  predicate Includes(s: string, q: string)
  {
    exists i | 0 <= i <= |s| - |q| :: OccursAt(s, q, i)
  }

  predicate OccursAt(s: string, q: string, i: int)
  {
    0 <= i <= |s| - |q| && s[i..i + |q|] == q
  }

  // ---------------------------------------------------------------------------
  // String order: JavaScript's `a < b` on strings, character by character

  predicate StrLess(a: string, b: string)
    decreases |a|
  {
    if |a| == 0 then |b| > 0
    else if |b| == 0 then false
    else if a[0] != b[0] then a[0] < b[0]
    else StrLess(a[1..], b[1..])
  }

  lemma {:induction false} StrLessIrreflexive(a: string)
    ensures !StrLess(a, a)
    decreases |a|
  {
    if |a| > 0 {
      StrLessIrreflexive(a[1..]);
    }
  }

  lemma {:induction false} StrLessTrichotomy(a: string, b: string)
    ensures StrLess(a, b) || a == b || StrLess(b, a)
    ensures !(StrLess(a, b) && StrLess(b, a))
    decreases |a|
  {
    if |a| > 0 && |b| > 0 && a[0] == b[0] {
      StrLessTrichotomy(a[1..], b[1..]);
      if a[1..] == b[1..] {
        assert a == [a[0]] + a[1..] && b == [b[0]] + b[1..];
      }
    }
  }

  lemma {:induction false} StrLessTransitive(a: string, b: string, c: string)
    requires StrLess(a, b) && StrLess(b, c)
    ensures StrLess(a, c)
    decreases |a|
  {
    if |a| > 0 && a[0] == b[0] && b[0] == c[0] {
      StrLessTransitive(a[1..], b[1..], c[1..]);
    }
  }

  // ---------------------------------------------------------------------------
  // trim()

  function TrimStart(s: string): (r: string)
    ensures |r| <= |s| && r == s[|s| - |r|..]
    ensures r != [] ==> !IsWhitespace(r[0])
    ensures forall i :: 0 <= i < |s| - |r| ==> IsWhitespace(s[i])
  {
    if |s| > 0 && IsWhitespace(s[0]) then TrimStart(s[1..]) else s
  }

  function TrimEnd(s: string): (r: string)
    ensures |r| <= |s| && r == s[..|r|]
    ensures r != [] ==> !IsWhitespace(r[|r| - 1])
    ensures forall i :: |r| <= i < |s| ==> IsWhitespace(s[i])
  {
    if |s| > 0 && IsWhitespace(s[|s| - 1]) then TrimEnd(s[..|s| - 1]) else s
  }

  /** `s.trim()`. */
  function Trim(s: string): string
  {
    TrimEnd(TrimStart(s))
  }

  /** `s.trim()` is empty exactly when every character of s is whitespace. */
  lemma TrimEmptyIffBlank(s: string)
    ensures Trim(s) == "" <==> forall i :: 0 <= i < |s| ==> IsWhitespace(s[i])
  {
    var t := TrimStart(s);
    if Trim(s) == "" {
      forall i | 0 <= i < |s| ensures IsWhitespace(s[i]) {
        if i >= |s| - |t| {
          assert t[i - (|s| - |t|)] == s[i];
        }
      }
    } else {
      assert t != [];
      assert !IsWhitespace(t[0]);
      assert t[0] == s[|s| - |t|];
    }
  }

  // ---------------------------------------------------------------------------
  // String(n) and parseInt

  predicate IsDecDigit(c: char)
  {
    '0' <= c <= '9'
  }

  predicate IsHexDigit(c: char)
  {
    ('0' <= c <= '9') || ('a' <= c <= 'f') || ('A' <= c <= 'F')
  }

  function DecDigitValue(c: char): nat
  {
    if '0' <= c <= '9' then c as int - '0' as int else 0
  }

  function HexDigitValue(c: char): nat
  {
    if '0' <= c <= '9' then c as int - '0' as int
    else if 'a' <= c <= 'f' then c as int - 'a' as int + 10
    else if 'A' <= c <= 'F' then c as int - 'A' as int + 10
    else 0
  }

  /** The longest prefix of s whose characters all satisfy p. */
  function Prefix(s: string, p: char -> bool): (r: string)
    ensures |r| <= |s| && r == s[..|r|]
    ensures forall i :: 0 <= i < |r| ==> p(r[i])
    ensures |r| < |s| ==> !p(s[|r|])
  {
    if s == [] || !p(s[0]) then [] else [s[0]] + Prefix(s[1..], p)
  }

  /** The number a digit string denotes in the given radix. */
  function DigitsValue(d: string, radix: nat, digit: char -> nat): nat
  {
    if d == [] then 0 else DigitsValue(d[..|d| - 1], radix, digit) * radix + digit(d[|d| - 1])
  }

  function DecChar(d: nat): char
    requires d < 10
  {
    ('0' as int + d) as char
  }

  /** The decimal numeral of a natural number, without leading zeros. */
  function NatToString(n: nat): (r: string)
    ensures |r| > 0
    ensures forall i :: 0 <= i < |r| ==> IsDecDigit(r[i])
  {
    if n < 10 then [DecChar(n)] else NatToString(n / 10) + [DecChar(n % 10)]
  }

  /** `String(n)` for an integer n (integers below 10^21, where JavaScript switches to exponents). */
  function IntToString(n: int): string
  {
    if n < 0 then "-" + NatToString(-n) else NatToString(n)
  }

  /** `String(x)` for a property value: what `parseInt` and property lookup coerce their argument to. */
  function ToJsString(x: Field<Scalar>): string
  {
    match x
    case Absent => "undefined"
    case Null => "null"
    case Val(Num(n)) => IntToString(n)
    case Val(Str(s)) => s
  }

  /** The digits after the sign: hexadecimal after a `0x`/`0X` prefix, decimal otherwise. */
  function ParseDigits(rest: string): Option<nat>
  {
    if |rest| >= 2 && rest[0] == '0' && (rest[1] == 'x' || rest[1] == 'X') then
      var d := Prefix(rest[2..], IsHexDigit);
      if d == [] then None else Some(DigitsValue(d, 16, HexDigitValue))
    else
      var d := Prefix(rest, IsDecDigit);
      if d == [] then None else Some(DigitsValue(d, 10, DecDigitValue))
  }

  /**
   * `parseInt(s)` with no radix: skip leading whitespace, take an optional sign,
   * read hexadecimal after a `0x`/`0X` prefix and decimal otherwise, and stop at the
   * first character that is not a digit. `None` is `NaN` (no digits at all).
   */
  function ParseInt(s: string): Option<int>
  {
    var t := TrimStart(s);
    if |t| > 0 && t[0] == '-' then Signed(true, ParseDigits(t[1..]))
    else if |t| > 0 && t[0] == '+' then Signed(false, ParseDigits(t[1..]))
    else Signed(false, ParseDigits(t))
  }

  /** The parsed digits with the sign applied. */
  function Signed(negative: bool, digits: Option<nat>): Option<int>
  {
    match digits
    case None => None
    case Some(v) => Some(if negative then -(v as int) else v)
  }

  /** `parseInt(x)` for any property value: its string form is parsed. */
  function ParseIntOf(x: Field<Scalar>): Option<int>
  {
    ParseInt(ToJsString(x))
  }

  lemma {:induction false} NatToStringValue(n: nat)
    ensures DigitsValue(NatToString(n), 10, DecDigitValue) == n
  {
    if n >= 10 {
      NatToStringValue(n / 10);
      var p := NatToString(n / 10);
      assert (p + [DecChar(n % 10)])[..|p|] == p;
    }
  }

  lemma PrefixWhole(s: string, p: char -> bool)
    requires forall i :: 0 <= i < |s| ==> p(s[i])
    ensures Prefix(s, p) == s
  {
  }

  /** A non-empty run of decimal digits reads as its value. */
  lemma ParseDecimalDigits(p: string)
    requires |p| > 0 && forall i :: 0 <= i < |p| ==> IsDecDigit(p[i])
    ensures ParseDigits(p) == Some(DigitsValue(p, 10, DecDigitValue))
  {
    assert IsDecDigit(p[0]);
    assert |p| >= 2 ==> IsDecDigit(p[1]);
    PrefixWhole(p, IsDecDigit);
  }

  lemma ParseNatString(n: nat)
    ensures ParseInt(NatToString(n)) == Some(n)
  {
    var s := NatToString(n);
    assert IsDecDigit(s[0]) && !IsWhitespace(s[0]);
    assert TrimStart(s) == s;
    ParseDecimalDigits(s);
    NatToStringValue(n);
  }

  lemma ParseNegative(p: string, v: nat)
    requires ParseDigits(p) == Some(v)
    ensures ParseInt("-" + p) == Some(-(v as int))
  {
    var s := "-" + p;
    assert s[0] == '-' && s[1..] == p;
    assert TrimStart(s) == s;
  }

  /** parseInt undoes String(n): the round trip from an integer id back to itself. */
  lemma IntToStringRoundTrip(n: int)
    ensures ParseInt(IntToString(n)) == Some(n)
  {
    if n < 0 {
      ParseDecimalDigits(NatToString(-n));
      NatToStringValue(-n);
      ParseNegative(NatToString(-n), -n);
    } else {
      ParseNatString(n);
    }
  }

  /** Hence `parseInt` of a numeric id is that id, and distinct ids have distinct string forms. */
  lemma ParseIntOfNumber(n: int)
    ensures ParseIntOf(Val(Num(n))) == Some(n)
  {
    IntToStringRoundTrip(n);
  }

  lemma IntToStringInjective(a: int, b: int)
    requires IntToString(a) == IntToString(b)
    ensures a == b
  {
    IntToStringRoundTrip(a);
    IntToStringRoundTrip(b);
  }
}
