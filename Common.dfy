/** Small shared definitions: an optional value, bytes, and the integer
    operations of C, C++ and Java that differ from Dafny's. */
module Common {

  datatype Option<T> = None | Some(value: T)

  /** An unsigned 8-bit value. */
  newtype byte = x: int | 0 <= x < 256

  const UInt32Modulus: int := 0x1_0000_0000

  /** `WEBRTC_VIDEO_CODEC_OK` and `WEBRTC_VIDEO_CODEC_UNINITIALIZED`. */
  const CodecOk: int := 0
  const CodecUninitialized: int := -7

  /** Integer division as C, C++ and Java do it: the quotient is truncated toward zero. */
  function TruncDiv(a: int, b: int): (q: int)
    requires b != 0
    ensures a >= 0 && b > 0 ==> q == a / b
    ensures a <= 0 && b > 0 ==> q == -((-a) / b)
  {
    var m := Abs(a) / Abs(b);
    if (a >= 0) == (b > 0) then m else -m
  }

  /** Conversion of an integer to `uint32_t`: reduction modulo 2^32. */
  function ToUInt32(x: int): (r: int)
    ensures 0 <= r < UInt32Modulus
    ensures 0 <= x < UInt32Modulus ==> r == x
  {
    x % 0x1_0000_0000
  }

  const SizeTModulus: int := 0x1_0000_0000_0000_0000

  /** `size_t` arithmetic (64-bit): reduction modulo 2^64. */
  function ToSizeT(x: int): (r: int)
    ensures 0 <= r < SizeTModulus
    ensures 0 <= x < SizeTModulus ==> r == x
  {
    x % 0x1_0000_0000_0000_0000
  }

  /** Conversion of an integer to a 32-bit two's complement `int` (Java `int`
      arithmetic, C++ `int32_t`): reduction into [-2^31, 2^31). */
  function ToInt32(x: int): (r: int)
    ensures -0x8000_0000 <= r < 0x8000_0000
    ensures -0x8000_0000 <= x < 0x8000_0000 ==> r == x
    ensures (r - x) % UInt32Modulus == 0
  {
    (x + 0x8000_0000) % 0x1_0000_0000 - 0x8000_0000
  }

  /** Conversion of a floating-point value to an integer (Java's `(int)` cast, C++'s
      implicit `float` to `int`): truncation toward zero. */
  function TruncToInt(x: real): (r: int)
    ensures x >= 0.0 ==> r as real <= x < r as real + 1.0
    ensures x < 0.0 ==> r as real - 1.0 < x <= r as real
  {
    if x >= 0.0 then x.Floor else -((-x).Floor)
  }

  /** A run of `n` zero samples. */
  function Zeros(n: nat): (r: seq<int>)
    ensures |r| == n && forall i :: 0 <= i < n ==> r[i] == 0
  {
    seq(n, _ => 0)
  }

  function Abs(x: int): (r: nat)
    ensures r == x || r == -x
  {
    if x < 0 then -x else x
  }

  function Min(a: int, b: int): (m: int)
    ensures m <= a && m <= b && (m == a || m == b)
  {
    if a <= b then a else b
  }

  function Max(a: int, b: int): (m: int)
    ensures m >= a && m >= b && (m == a || m == b)
  {
    if a >= b then a else b
  }

  /** Number of elements of `s` equal to `x`. */
  function Count<T(==)>(s: seq<T>, x: T): (n: nat)
    ensures n <= |s|
    ensures n == 0 <==> x !in s
  {
    if s == [] then 0 else (if s[0] == x then 1 else 0) + Count(s[1..], x)
  }

  /** `s` with its first occurrence of `x` removed (std::find + erase). */
  function RemoveFirst<T(==)>(s: seq<T>, x: T): (r: seq<T>)
    ensures x !in s ==> r == s
    ensures x in s ==> |r| == |s| - 1
    ensures multiset(r) == multiset(s) - multiset{x}
  {
    if s == [] then []
    else
      assert s == [s[0]] + s[1..];
      if s[0] == x then s[1..] else [s[0]] + RemoveFirst(s[1..], x)
  }

  /** `s` without any occurrence of `x` (std::remove / erase). */
  function RemoveAll<T(==)>(s: seq<T>, x: T): (r: seq<T>)
    ensures x !in r
    ensures forall i :: 0 <= i < |r| ==> r[i] in s && r[i] != x
    ensures forall i :: 0 <= i < |s| && s[i] != x ==> s[i] in r
    ensures |r| <= |s|
  {
    if s == [] then []
    else if s[0] == x then RemoveAll(s[1..], x)
    else [s[0]] + RemoveAll(s[1..], x)
  }

  /** Proof helper (arithmetic): a positive value times a factor of at least one is at least that value. */
  lemma MulAtLeast(a: int, c: int)
    requires a >= 1 && c > 0
    ensures a * c >= c
  {
  }

  /** Proof helper (arithmetic). Euclidean division is unique: the quotient and remainder are the only ones with `x == d * c + r`. */
  lemma ModUnique(x: int, c: int, d: int, r: int)
    requires c > 0 && 0 <= r < c && x == d * c + r
    ensures x % c == r && x / c == d
  {
    var d2 := x / c;
    var r2 := x % c;
    assert x == d2 * c + r2;
    if d2 < d {
      MulAtLeast(d - d2, c);
    } else if d2 > d {
      MulAtLeast(d2 - d, c);
    }
  }

  /** A set of integers is empty or has an element. */
  lemma EmptyOrHasElement(s: set<int>)
    ensures s == {} || exists x :: x in s
  {
    if forall x :: x !in s {
      assert s == {};
    }
  }

  /** Proof helper (arithmetic): a value is its quotient times the divisor plus its remainder. */
  lemma DivModParts(x: int, b: int)
    requires b > 0
    ensures (x / b) * b + x % b == x && 0 <= x % b < b
  {
  }
}
