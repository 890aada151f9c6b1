/**
 * The part of SQLite's value semantics the store relies on: what a bound
 * Python value becomes in a TEXT column, the integer range of a row id,
 * and the BINARY collation that ORDER BY uses on text.
 */
module Sqlite {
  import opened Wrappers
  import opened JsonValue

  /** The content of a TEXT column: SQL NULL (`None`) or a text. */
  type Cell = Option<string>

  /** The bounds of SQLite's 64-bit INTEGER, which is also the row id range. */
  const MaxInteger: int := 0x7FFF_FFFF_FFFF_FFFF
  const MinInteger: int := -0x8000_0000_0000_0000

  /** Why a parameter could not be bound to a statement. */
  datatype BindError =
    | UnsupportedType   // a list or a dict: the driver has no SQL type for it
    | IntegerOverflow   // an int outside the 64-bit range

  // ----- decimal text of an integer (TEXT affinity converts INTEGER this way)

  predicate IsDigit(c: char) { '0' <= c <= '9' }

  predicate AllDigits(s: string) {
    forall i :: 0 <= i < |s| ==> IsDigit(s[i])
  }

  function DigitChar(d: nat): (c: char)
    requires d < 10
    ensures IsDigit(c) && c as int - '0' as int == d
  {
    ('0' as int + d) as char
  }

  function DigitValue(c: char): nat
    requires IsDigit(c)
  {
    c as int - '0' as int
  }

  /** The decimal digits of `n`, without leading zeros. */
  function NatText(n: nat): string
    decreases n
  {
    if n < 10 then [DigitChar(n)] else NatText(n / 10) + [DigitChar(n % 10)]
  }

  /** The value of a string of decimal digits (0 for the empty string). */
  function DigitsValue(s: string): nat
    requires AllDigits(s)
    decreases |s|
  {
    if s == [] then 0 else DigitsValue(s[..|s| - 1]) * 10 + DigitValue(s[|s| - 1])
  }

  /** The text SQLite stores for an INTEGER written into a TEXT column. */
  function IntText(n: int): string {
    if n < 0 then "-" + NatText(-n) else NatText(n)
  }

  /** Reads back an integer from its decimal text. */
  function ParseInt(s: string): Option<int> {
    if |s| > 1 && s[0] == '-' && AllDigits(s[1..]) then Some(-(DigitsValue(s[1..]) as int))
    else if |s| > 0 && AllDigits(s) then Some(DigitsValue(s))
    else None
  }

  lemma {:induction false} NatTextDigits(n: nat)
    ensures |NatText(n)| > 0 && AllDigits(NatText(n)) && DigitsValue(NatText(n)) == n
    ensures NatText(n)[0] != '-'
    decreases n
  {
    if n >= 10 {
      NatTextDigits(n / 10);
      var s := NatText(n);
      assert s[..|s| - 1] == NatText(n / 10);
    }
  }

  /** Decimal text is a faithful encoding: parsing it gives the integer back. */
  lemma IntTextRoundTrip(n: int)
    ensures ParseInt(IntText(n)) == Some(n)
  {
    if n < 0 {
      NatTextDigits(-n);
      assert IntText(n)[1..] == NatText(-n);
    } else {
      NatTextDigits(n);
    }
  }

  /** Two integers stored in a TEXT column are equal as texts only if they are equal. */
  lemma IntTextInjective(m: int, n: int)
    requires IntText(m) == IntText(n)
    ensures m == n
  {
    IntTextRoundTrip(m);
    IntTextRoundTrip(n);
  }

  // ----- binding a Python value to a parameter of a TEXT column

  /**
   * What a value becomes once bound to `?` and stored in a TEXT column:
   * None is NULL, a str is stored as is, a bool or int is an INTEGER that
   * TEXT affinity turns into its decimal text (True is 1), and a list or
   * dict cannot be bound at all.
   */
  function BindText(v: Json): (r: Result<Cell, BindError>)
    ensures r == Success(None) <==> v.Null?
    ensures v.Str? ==> r == Success(Some(v.s))
    ensures r.Failure? <==> v.Arr? || v.Obj? || (v.Num? && !(MinInteger <= v.n <= MaxInteger))
    ensures r.Success? && v.Num? ==> r.value.Some? && ParseInt(r.value.value) == Some(v.n)
    ensures r.Success? && v.Bool? ==> r.value.Some? && ParseInt(r.value.value) == Some(if v.b then 1 else 0)
  {
    match v
    case Null => Success(None)
    case Bool(b) =>
      var n := if b then 1 else 0;
      IntTextRoundTrip(n);
      Success(Some(IntText(n)))
    case Num(n) =>
      if MinInteger <= n <= MaxInteger then
        IntTextRoundTrip(n);
        Success(Some(IntText(n)))
      else
        Failure(IntegerOverflow)
    case Str(s) => Success(Some(s))
    case Arr(_) => Failure(UnsupportedType)
    case Obj(_) => Failure(UnsupportedType)
  }

  predicate Bindable(v: Json) { BindText(v).Success? }

  // ----- the BINARY collation on text

  /**
   * `a` sorts at or before `b` under the BINARY collation: memcmp of the
   * UTF-8 bytes, a proper prefix first. For UTF-8 the byte order is the
   * code point order, so the comparison is made on characters.
   */
  predicate TextLe(a: string, b: string)
    ensures a <= b ==> TextLe(a, b)  // a prefix sorts first
    decreases |a|
  {
    a == [] || (b != [] && (a[0] < b[0] || (a[0] == b[0] && TextLe(a[1..], b[1..]))))
  }

  lemma {:induction false} TextLeTotal(a: string, b: string)
    ensures TextLe(a, b) || TextLe(b, a)
    decreases |a|
  {
    if a != [] && b != [] && a[0] == b[0] { TextLeTotal(a[1..], b[1..]); }
  }

  lemma {:induction false} TextLeTransitive(a: string, b: string, c: string)
    requires TextLe(a, b) && TextLe(b, c)
    ensures TextLe(a, c)
    decreases |a|
  {
    if a != [] && a[0] == b[0] && b[0] == c[0] { TextLeTransitive(a[1..], b[1..], c[1..]); }
  }

  lemma {:induction false} TextLeAntisymmetric(a: string, b: string)
    requires TextLe(a, b) && TextLe(b, a)
    ensures a == b
    decreases |a|
  {
    if a != [] {
      TextLeAntisymmetric(a[1..], b[1..]);
      assert a == [a[0]] + a[1..] && b == [b[0]] + b[1..];
    }
  }

  /** Texts that share a prefix compare as what follows the prefix does. */
  lemma {:induction false} TextLeCommonPrefix(p: string, x: string, y: string)
    ensures TextLe(p + x, p + y) <==> TextLe(x, y)
    decreases |p|
  {
    if p != [] {
      assert (p + x)[0] == p[0] == (p + y)[0];
      assert (p + x)[1..] == p[1..] + x && (p + y)[1..] == p[1..] + y;
      TextLeCommonPrefix(p[1..], x, y);
    } else {
      assert p + x == x && p + y == y;
    }
  }
}
