/** Rust's fixed-width integers and integer operators, written out over
    Dafny's unbounded `int`. Dafny's `/` and `%` are Euclidean; Rust's round
    toward zero, so the two are kept apart here. */
module RustInt {

  const I32_MIN: int := -0x8000_0000
  const I32_MAX: int := 0x7fff_ffff
  const TWO_POW_32: int := 0x1_0000_0000

  /** The values of Rust's `i32`. */
  predicate InI32(x: int) {
    I32_MIN <= x <= I32_MAX
  }

  function Abs(x: int): nat {
    if x < 0 then -x else x
  }

  /** Rust's integer `/`: the quotient rounded toward zero. `b * q` is the
      multiple of `b` nearest to `a` on the side of 0. */
  function DivT(a: int, b: int): (q: int)
    requires b != 0
    ensures Abs(b * q) <= Abs(a) < Abs(b * q) + Abs(b)
    ensures b * q == 0 || (b * q < 0 <==> a < 0)
  {
    var k := Abs(a) / Abs(b);
    var q := if (a < 0) == (b < 0) then k else -k;
    SignedProduct(a, b, k, q);
    q
  }

  /** The quotient of the magnitudes, given the sign that makes `b * q` share
      the sign of `a`: `b * q` is then `Abs(b) * k` with the sign of `a`. */
  lemma SignedProduct(a: int, b: int, k: int, q: int)
    requires b != 0 && k == Abs(a) / Abs(b)
    requires q == if (a < 0) == (b < 0) then k else -k
    ensures Abs(b * q) <= Abs(a) < Abs(b * q) + Abs(b)
    ensures b * q == 0 || (b * q < 0 <==> a < 0)
  {
    var p := Abs(b) * k;
    MagnitudeBounds(Abs(a), Abs(b), k);
    NegatedFactor(Abs(b), k);
    assert b * q == if a < 0 then -p else p;
  }

  /** Euclidean division of magnitudes: `bb * k` is at most `aa` and within `bb`
      of it. */
  lemma MagnitudeBounds(aa: nat, bb: nat, k: int)
    requires bb != 0 && k == aa / bb
    ensures 0 <= bb * k <= aa < bb * k + bb
  {
    assert aa == bb * k + aa % bb;
  }

  /** Negating one factor negates the product. */
  lemma NegatedFactor(x: int, y: int)
    ensures x * -y == -(x * y) && -x * y == -(x * y) && -x * -y == x * y
  {
  }

  /** Rust's integer `%`: the remainder that goes with `DivT`. It carries the
      sign of the dividend, and is smaller than the divisor in magnitude. */
  function RemT(a: int, b: int): (r: int)
    requires b != 0
    ensures a == b * DivT(a, b) + r
    ensures Abs(r) < Abs(b)
    ensures r == 0 || (r < 0 <==> a < 0)
  {
    a - b * DivT(a, b)
  }

  /** For the divisor 2, Rust's `%` and Dafny's `%` agree on whether a number
      is odd, and on even numbers Rust's `/` is exact and equals Dafny's. */
  lemma HalvingAgrees(d: int)
    ensures (RemT(d, 2) != 0) <==> (d % 2 != 0)
    ensures d % 2 == 0 ==> DivT(d, 2) == d / 2 && 2 * DivT(d, 2) == d
  {
    if d < 0 {
      assert Abs(d) == -d;
      assert (-d) % 2 == d % 2;
    }
  }

  /** Rust's `usize as i32`: keeps the low 32 bits and reads them as two's
      complement. */
  function AsI32(n: nat): (r: int)
    ensures InI32(r)
    ensures (n - r) % TWO_POW_32 == 0
    ensures n <= I32_MAX ==> r == n
  {
    var low := n % TWO_POW_32;
    assert n == TWO_POW_32 * (n / TWO_POW_32) + low;
    if low <= I32_MAX then low else low - TWO_POW_32
  }

  /** A real rounded toward zero, as Rust's float-to-integer casts do. */
  function TruncReal(x: real): (t: int)
    ensures 0.0 <= x ==> t as real <= x < t as real + 1.0
    ensures x < 0.0 ==> t as real - 1.0 < x <= t as real
  {
    if x >= 0.0 then x.Floor else -((-x).Floor)
  }

  /** Rust's `f32 as i32` on a finite value: rounds toward zero, then
      saturates at the ends of `i32`. */
  function F32AsI32(x: real): (r: int)
    ensures InI32(r)
    ensures InI32(TruncReal(x)) ==> r == TruncReal(x)
    ensures TruncReal(x) > I32_MAX ==> r == I32_MAX
    ensures TruncReal(x) < I32_MIN ==> r == I32_MIN
  {
    var t := TruncReal(x);
    if t > I32_MAX then I32_MAX else if t < I32_MIN then I32_MIN else t
  }
}
