/**
  The few pieces of java.lang semantics that the client's own code relies on:
  nullable references, 32-bit `int` arithmetic with wrap-around,
  `String.hashCode` and the `%s` conversion of `String.format`.
 */
module JavaLang {

  /** A Java reference that may be null. */
  datatype Nullable<+T> = Null | Ref(value: T)

  /** A `java.lang.String` reference. */
  type JString = Nullable<string>

  const TWO_32: int := 0x1_0000_0000
  const MIN_INT: int := -0x8000_0000
  const MAX_INT: int := 0x7FFF_FFFF

  /** The values of a Java `int`. */
  type Int32 = x: int | MIN_INT <= x <= MAX_INT

  /** Java `int` arithmetic: the exact result reduced into the 32-bit two's-complement range. */
  function Wrap(x: int): (r: Int32)
    ensures (x - r) % TWO_32 == 0
    ensures MIN_INT <= x <= MAX_INT ==> r == x
  {
    (x - MIN_INT) % TWO_32 + MIN_INT
  }

  /** Adding a multiple of 2^32 does not change the wrapped value. */
  lemma WrapShift(x: int, m: int)
    ensures Wrap(x + TWO_32 * m) == Wrap(x)
  {
    var y := x - MIN_INT;
    assert (y + TWO_32 * m) % TWO_32 == y % TWO_32 by {
      var q, r := y / TWO_32, y % TWO_32;
      assert y + TWO_32 * m == TWO_32 * (q + m) + r;
    }
  }

  /** One step of an `h = k * h + c` loop may wrap early or late: the result is the same. */
  lemma WrapMulAdd(k: int, a: int, c: int)
    ensures Wrap(k * Wrap(a) + c) == Wrap(k * a + c)
  {
    var m := (a - MIN_INT) / TWO_32;
    assert Wrap(a) == a - TWO_32 * m;
    assert k * Wrap(a) + c == (k * a + c) + TWO_32 * (-(k * m));
    WrapShift(k * a + c, -(k * m));
  }

  /** The UTF-16 code units of one character, as a Java `String` stores it. */
  function Utf16(c: char): (units: seq<int>)
    ensures 1 <= |units| <= 2
    ensures forall u <- units :: 0 <= u < 0x1_0000
    ensures |units| == 1 <==> (c as int) < 0x1_0000
    ensures |units| == 2 ==> 0xD800 <= units[0] < 0xDC00 <= units[1] < 0xE000
  {
    if (c as int) < 0x1_0000 then [c as int]
    else
      var v := c as int - 0x1_0000;
      [0xD800 + v / 0x400, 0xDC00 + v % 0x400]
  }

  /** The UTF-16 code units of a whole string. */
  function Utf16String(s: string): seq<int>
  {
    if s == [] then [] else Utf16String(s[..|s| - 1]) + Utf16(s[|s| - 1])
  }

  /** The `h = 31 * h + unit` loop of `String.hashCode`, in Java `int` arithmetic. */
  function HashUnits(units: seq<int>): Int32
  {
    if units == [] then 0
    else Wrap(31 * HashUnits(units[..|units| - 1]) + units[|units| - 1])
  }

  /** The same polynomial over unbounded integers (Horner form of s[0]*31^(n-1) + ... + s[n-1]). */
  function Polynomial(units: seq<int>): int
  {
    if units == [] then 0
    else 31 * Polynomial(units[..|units| - 1]) + units[|units| - 1]
  }

  /** `String.hashCode()`. */
  function StringHashCode(s: string): Int32
  {
    HashUnits(Utf16String(s))
  }

  /** The hash loop equals the exact polynomial reduced once, modulo 2^32. */
  lemma {:induction false} HashUnitsIsWrappedPolynomial(units: seq<int>)
    ensures HashUnits(units) == Wrap(Polynomial(units))
  {
    if units != [] {
      var init, last := units[..|units| - 1], units[|units| - 1];
      HashUnitsIsWrappedPolynomial(init);
      WrapMulAdd(31, Polynomial(init), last);
    }
  }

  /** The `%s` conversion of `String.format` applied to a string argument. */
  function FormatString(s: JString): string
  {
    match s
    case Null => "null"
    case Ref(v) => v
  }

  /** `s == null ? 0 : s.hashCode()`, the idiom of every generated `hashCode`. */
  function NullSafeHash(s: JString): Int32
  {
    match s
    case Null => 0
    case Ref(v) => StringHashCode(v)
  }
}
