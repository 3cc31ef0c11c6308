/**
 * Scalars and 3-vectors shared by every part of the rasterizer, together with
 * the C conversions the core relies on: truncating integer division, the
 * float-to-int cast, floor and ceil.  Scalars are exact reals.
 */
module Scalars {

  /** A 3-vector of scalars, as built by makeVec3. */
  datatype Vec3 = Vec3(x: real, y: real, z: real) {

    /** Component i (0 = x, 1 = y, 2 = z), the view `v[i]` that float[3] arrays give. */
    function At(i: int): real
      requires 0 <= i < 3
    {
      if i == 0 then x else if i == 1 then y else z
    }

    /** The vector with component i replaced by v. */
    function With(i: int, v: real): (r: Vec3)
      requires 0 <= i < 3
      ensures r.At(i) == v
      ensures forall j :: 0 <= j < 3 && j != i ==> r.At(j) == At(j)
    {
      if i == 0 then this.(x := v) else if i == 1 then this.(y := v) else this.(z := v)
    }
  }

  /** The dot product a · b. */
  function Dot(a: Vec3, b: Vec3): real
  {
    a.x * b.x + a.y * b.y + a.z * b.z
  }

  /** Every component of v divided by s. */
  function Over(v: Vec3, s: real): Vec3
    requires s != 0.0
  {
    Vec3(v.x / s, v.y / s, v.z / s)
  }

  function Min(a: real, b: real): (r: real)
    ensures r <= a && r <= b && (r == a || r == b)
  {
    if a <= b then a else b
  }

  function Max(a: real, b: real): (r: real)
    ensures a <= r && b <= r && (r == a || r == b)
  {
    if a >= b then a else b
  }

  function Abs(n: int): (r: nat)
    ensures r == n || r == -n
  {
    if n < 0 then -n else n
  }

  /**
   * C's `/` on int: the quotient truncated toward zero, so its magnitude is
   * the quotient of the magnitudes and it is negative exactly when the
   * signs differ (and it is not 0).
   */
  function CDiv(a: int, b: int): (q: int)
    requires b != 0
    ensures Abs(q) == Abs(a) / Abs(b)
    ensures q != 0 ==> (q < 0 <==> (a < 0) != (b < 0))
    ensures 0 <= a && 0 < b ==> q == a / b
    ensures Abs(a) < Abs(b) ==> q == 0
    ensures (0 <= a && 0 < b) || (a <= 0 && b < 0) ==> 0 <= q
  {
    var m := Abs(a) / Abs(b);
    DivNonNegative(Abs(a), Abs(b));
    if Abs(a) < Abs(b) then
      DivSmall(Abs(a), Abs(b));
      0
    else if (a < 0) != (b < 0) then -m
    else m
  }

  /** A quotient of naturals by a positive divisor is a natural. */
  lemma DivNonNegative(x: int, y: int)
    requires 0 <= x && 0 < y
    ensures 0 <= x / y
  {
  }

  /** A natural below the divisor has quotient 0. */
  lemma DivSmall(x: int, y: int)
    requires 0 <= x < y
    ensures x / y == 0
  {
  }

  /** C's `(int)` cast of a scalar: truncation toward zero. */
  function Trunc(v: real): (n: int)
    ensures 0.0 <= v ==> 0 <= n && n as real <= v < n as real + 1.0
    ensures v <= 0.0 ==> n <= 0 && n as real - 1.0 < v <= n as real
  {
    if v >= 0.0 then v.Floor else -((-v).Floor)
  }

  /** C's floor, as an integer. */
  function Floor(v: real): (n: int)
    ensures n as real <= v < n as real + 1.0
  {
    v.Floor
  }

  /** C's ceil, as an integer. */
  function Ceil(v: real): (n: int)
    ensures v <= n as real < v + 1.0
  {
    -((-v).Floor)
  }

  /** Multiplying by a non-negative factor preserves order. */
  lemma MulLe(a: int, b: int, c: int)
    requires 0 <= a && b <= c
    ensures a * b <= a * c
  {
    MulNonNegative(a, c - b);
    assert a * c - a * b == a * (c - b);
  }

  lemma MulNonNegative(a: int, b: int)
    requires 0 <= a && 0 <= b
    ensures 0 <= a * b
  {
  }

  /** A non-zero multiple of w is at least w away from 0. */
  lemma MulAwayFromZero(w: int, d: int)
    requires 0 < w
    ensures 1 <= d ==> w <= w * d
    ensures d <= -1 ==> w * d <= -w
  {
    if 1 <= d {
      MulLe(w, 1, d);
    } else if d <= -1 {
      MulLe(w, 1, -d);
      assert w * -d == -(w * d);
    }
  }

  /** Euclidean division recovers quotient and remainder of w * q + r. */
  lemma DivUnique(w: int, q: int, r: int)
    requires 0 <= r < w
    ensures (w * q + r) / w == q && (w * q + r) % w == r
  {
    var k := w * q + r;
    var q', r' := k / w, k % w;
    assert w * (q' - q) == r - r';
    MulAwayFromZero(w, q' - q);
  }
}
