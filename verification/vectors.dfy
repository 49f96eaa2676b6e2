/** Three-component vectors over the reals, standing in for glam's `Vec3`.
    Only the operations the game systems use are defined; f32 rounding is not modelled.

    Squares are kept behind `Sq` (and products of two different terms behind `Mul`
    where a proof needs them) so that facts about them survive unfolding. */
module Vectors {

  datatype Vec3 = Vec3(x: real, y: real, z: real)

  const Zero: Vec3 := Vec3(0.0, 0.0, 0.0)

  function Add(a: Vec3, b: Vec3): Vec3 {
    Vec3(a.x + b.x, a.y + b.y, a.z + b.z)
  }

  function Neg(a: Vec3): Vec3 {
    Vec3(-a.x, -a.y, -a.z)
  }

  function Scale(a: Vec3, k: real): Vec3 {
    Vec3(a.x * k, a.y * k, a.z * k)
  }

  function Sq(v: real): real {
    v * v
  }

  function Mul(v: real, w: real): real {
    v * w
  }

  /** Squared Euclidean length: for `d >= 0`, `distance(a, ZERO) > d` is `NormSq(a) > Sq(d)`. */
  function NormSq(a: Vec3): real {
    Sq(a.x) + Sq(a.y) + Sq(a.z)
  }

  lemma MulPos(v: real, w: real)
    requires v > 0.0 && w > 0.0
    ensures Mul(v, w) > 0.0
  {
  }

  lemma SqDiff(a: real, b: real)
    ensures Sq(b) - Sq(a) == Mul(b - a, b + a)
  {
  }

  /** Squaring is strictly increasing on the non-negative reals. */
  lemma SqStrictMono(a: real, b: real)
    requires 0.0 <= a < b
    ensures Sq(a) < Sq(b)
  {
    MulPos(b - a, b + a);
    SqDiff(a, b);
  }

  lemma SqMono(a: real, b: real)
    requires 0.0 <= a <= b
    ensures Sq(a) <= Sq(b)
  {
    if a < b {
      SqStrictMono(a, b);
    }
  }

  lemma SqPos(v: real)
    ensures Sq(v) >= 0.0
    ensures v != 0.0 ==> Sq(v) > 0.0
  {
    if v > 0.0 {
      SqStrictMono(0.0, v);
    } else if v < 0.0 {
      SqStrictMono(0.0, -v);
      assert Sq(-v) == Sq(v);
    }
  }

  /** A value in `[lo, hi)` with `-hi <= lo` squares to at most `Sq(hi)`. */
  lemma SqBound(v: real, lo: real, hi: real)
    requires -hi <= lo <= v < hi
    ensures Sq(v) <= Sq(hi)
  {
    if v >= 0.0 {
      SqMono(v, hi);
    } else {
      SqMono(-v, hi);
      assert Sq(-v) == Sq(v);
    }
  }

  lemma DivFacts(a: real, b: real)
    requires 0.0 <= a < b
    ensures 0.0 <= a / b < 1.0 && Mul(a / b, b) == a
  {
  }

  lemma SqInverse(v: real)
    requires v > 0.0
    ensures Mul(Sq(1.0 / v), Sq(v)) == 1.0
  {
  }

  /** The squared length is zero exactly for the zero vector. */
  lemma NormSqZero(a: Vec3)
    ensures NormSq(a) >= 0.0
    ensures NormSq(a) == 0.0 <==> a == Zero
  {
    SqPos(a.x);
    SqPos(a.y);
    SqPos(a.z);
  }

  /** Scaling twice is scaling once by the product of the factors. */
  lemma ScaleScale(v: Vec3, a: real, b: real)
    ensures Scale(Scale(v, a), b) == Scale(v, Mul(a, b))
  {
  }

  /** Scaling a vector scales its squared length by the square of the factor. */
  lemma NormSqScale(a: Vec3, k: real)
    ensures NormSq(Scale(a, k)) == Mul(Sq(k), NormSq(a))
  {
    assert Sq(a.x * k) == Sq(k) * Sq(a.x);
    assert Sq(a.y * k) == Sq(k) * Sq(a.y);
    assert Sq(a.z * k) == Sq(k) * Sq(a.z);
  }
}
