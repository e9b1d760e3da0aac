/** The two pose distances the clustering compares against its tolerances:
    the Euclidean distance between two shifts and the angle between two
    rotations given as quaternions (script/parse_log.py, shift_difference and
    quaternion_angle_distance).

    Square root and arc cosine are not reproduced. They are passed in as a
    `Numerics` value, and `Lawful` states the only facts about them the model
    relies on. Everything built on top of them is concrete, so the metric laws
    (non-negative, symmetric, zero on self, blind to the sign of a quaternion)
    are proved rather than assumed. */
module Geometry {

  /** The transcendental operations of the distance functions: `sqrt` stands
      for the square root inside np.linalg.norm, `arccosDegrees(c)` for
      np.degrees(np.arccos(c)). */
  datatype Numerics = Numerics(sqrt: real -> real, arccosDegrees: real -> real)

  /** What the model needs to know about the two operations: the square root
      is the non-negative root (so it is 0 at 0 and positive elsewhere), and
      the arc cosine (in degrees) maps [0, 1] into [0, 90] and 1 to 0. */
  ghost predicate Lawful(num: Numerics) {
    && (forall x :: 0.0 <= x ==> 0.0 <= num.sqrt(x) && Square(num.sqrt(x)) == x)
    && num.sqrt(0.0) == 0.0
    && (forall x :: 0.0 < x ==> 0.0 < num.sqrt(x))
    && num.arccosDegrees(1.0) == 0.0
    && (forall c :: 0.0 <= c <= 1.0 ==> 0.0 <= num.arccosDegrees(c) <= 90.0)
  }

  function Abs(x: real): real {
    if x < 0.0 then -x else x
  }

  /** np.clip(x, -1.0, 1.0) */
  function Clip(x: real): real {
    if x < -1.0 then -1.0 else if 1.0 < x then 1.0 else x
  }

  function Min(a: nat, b: nat): nat {
    if a <= b then a else b
  }

  /** Component-wise negation: the quaternion -q. */
  function Neg(v: seq<real>): seq<real> {
    seq(|v|, i requires 0 <= i < |v| => -v[i])
  }

  function Scale(v: seq<real>, k: real): seq<real> {
    seq(|v|, i requires 0 <= i < |v| => v[i] * k)
  }

  /** Component-wise difference, over the common length of the two vectors. */
  function Diff(a: seq<real>, b: seq<real>): seq<real> {
    seq(Min(|a|, |b|), i requires 0 <= i < Min(|a|, |b|) => a[i] - b[i])
  }

  /** Real multiplication, with the sign rules the proofs below rely on. */
  function Product(a: real, b: real): (r: real)
    ensures 0.0 < a && 0.0 < b ==> 0.0 < r
    ensures a < 0.0 && b < 0.0 ==> 0.0 < r
    ensures a == 0.0 || b == 0.0 ==> r == 0.0
  {
    a * b
  }

  function Square(x: real): (r: real)
    ensures 0.0 <= r
    ensures x != 0.0 ==> 0.0 < r
  {
    Product(x, x)
  }

  /** Sum of squares: the squared Euclidean norm. */
  function SqNorm(v: seq<real>): (r: real)
    ensures 0.0 <= r
    decreases |v|
  {
    if |v| == 0 then 0.0 else Square(v[0]) + SqNorm(v[1..])
  }

  /** A vector with a nonzero component has a positive squared norm. */
  lemma {:induction false} SqNormPositive(v: seq<real>, i: nat)
    requires i < |v| && v[i] != 0.0
    ensures 0.0 < SqNorm(v)
    decreases i
  {
    if 0 < i {
      assert v[1..][i - 1] == v[i];
      SqNormPositive(v[1..], i - 1);
    }
  }

  /** The zero vector has squared norm 0. */
  lemma {:induction false} SqNormZero(v: seq<real>)
    requires forall i :: 0 <= i < |v| ==> v[i] == 0.0
    ensures SqNorm(v) == 0.0
    decreases |v|
  {
    if 0 < |v| {
      SqNormZero(v[1..]);
    }
  }

  function Dot(a: seq<real>, b: seq<real>): real
    decreases |a|
  {
    if |a| == 0 || |b| == 0 then 0.0 else a[0] * b[0] + Dot(a[1..], b[1..])
  }

  lemma {:induction false} DotSelf(v: seq<real>)
    ensures Dot(v, v) == SqNorm(v)
    decreases |v|
  {
    if |v| > 0 {
      DotSelf(v[1..]);
    }
  }

  lemma {:induction false} DotSymmetric(a: seq<real>, b: seq<real>)
    ensures Dot(a, b) == Dot(b, a)
    decreases |a|
  {
    if |a| > 0 && |b| > 0 {
      DotSymmetric(a[1..], b[1..]);
    }
  }

  lemma {:induction false} DotNegLeft(a: seq<real>, b: seq<real>)
    ensures Dot(Neg(a), b) == -Dot(a, b)
    decreases |a|
  {
    if |a| > 0 && |b| > 0 {
      assert Neg(a)[1..] == Neg(a[1..]);
      DotNegLeft(a[1..], b[1..]);
    }
  }

  lemma DotNegRight(a: seq<real>, b: seq<real>)
    ensures Dot(a, Neg(b)) == -Dot(a, b)
  {
    DotSymmetric(a, Neg(b));
    DotNegLeft(b, a);
    DotSymmetric(a, b);
  }

  lemma ScaleTail(v: seq<real>, k: real)
    requires 0 < |v|
    ensures Scale(v, k)[1..] == Scale(v[1..], k)
  {
    forall j | 0 <= j < |v| - 1
      ensures Scale(v, k)[1..][j] == Scale(v[1..], k)[j]
    {
      assert v[1..][j] == v[j + 1];
    }
  }

  /** The dot product is linear in its first argument. */
  lemma {:induction false} DotScaleLeft(a: seq<real>, b: seq<real>, k: real)
    ensures Dot(Scale(a, k), b) == k * Dot(a, b)
    decreases |a|
  {
    if |a| > 0 && |b| > 0 {
      ScaleTail(a, k);
      DotScaleLeft(a[1..], b[1..], k);
      assert Scale(a, k)[0] == a[0] * k;
    }
  }

  /** Scaling a vector by k scales its squared norm by k * k. */
  lemma SqNormScale(v: seq<real>, k: real)
    ensures SqNorm(Scale(v, k)) == k * (k * SqNorm(v))
  {
    var w := Scale(v, k);
    DotSelf(w);
    DotScaleLeft(v, w, k);
    DotSymmetric(v, w);
    DotScaleLeft(v, v, k);
    DotSelf(v);
  }

  lemma {:induction false} SqNormNeg(v: seq<real>)
    ensures SqNorm(Neg(v)) == SqNorm(v)
    decreases |v|
  {
    if |v| > 0 {
      assert Neg(v)[1..] == Neg(v[1..]);
      SqNormNeg(v[1..]);
    }
  }

  /** np.linalg.norm(v) */
  function Norm(num: Numerics, v: seq<real>): real {
    num.sqrt(SqNorm(v))
  }

  /** A lawful norm vanishes exactly on vectors with squared norm 0. */
  lemma NormZero(num: Numerics, v: seq<real>)
    requires Lawful(num)
    ensures 0.0 <= Norm(num, v)
    ensures Norm(num, v) == 0.0 <==> SqNorm(v) == 0.0
  {
  }

  /** shift_difference: the Euclidean distance between two shifts. */
  function ShiftDifference(num: Numerics, a: seq<real>, b: seq<real>): real {
    Norm(num, Diff(a, b))
  }

  /** The distance is the non-negative root of the sum of squared component
      differences. */
  lemma ShiftDifferenceNonNegative(num: Numerics, a: seq<real>, b: seq<real>)
    requires Lawful(num)
    ensures 0.0 <= ShiftDifference(num, a, b)
    ensures Square(ShiftDifference(num, a, b)) == SqNorm(Diff(a, b))
  {
  }

  lemma ShiftDifferenceSymmetric(num: Numerics, a: seq<real>, b: seq<real>)
    requires Lawful(num)
    ensures ShiftDifference(num, a, b) == ShiftDifference(num, b, a)
  {
    assert Diff(b, a) == Neg(Diff(a, b));
    SqNormNeg(Diff(a, b));
  }

  /** The distance between two shifts of the same length is 0 exactly when
      the shifts are identical; in particular a shift is at distance 0 from
      itself. */
  lemma ShiftDifferenceZeroIffEqual(num: Numerics, a: seq<real>, b: seq<real>)
    requires Lawful(num)
    requires |a| == |b|
    ensures ShiftDifference(num, a, b) == 0.0 <==> a == b
  {
    var d := Diff(a, b);
    if a == b {
      assert forall i :: 0 <= i < |d| ==> d[i] == 0.0;
      SqNormZero(d);
    } else {
      var i :| 0 <= i < |a| && a[i] != b[i];
      assert d[i] != 0.0;
      SqNormPositive(d, i);
    }
  }

  lemma InverseSquare(s: real)
    requires s != 0.0
    ensures (1.0 / s) * ((1.0 / s) * Square(s)) == 1.0
  {
  }

  /** q / np.linalg.norm(q). numpy yields NaN components for a quaternion
      of nonzero length whose norm is zero; the model asks for a nonzero
      norm instead. */
  function Normalize(num: Numerics, q: seq<real>): (u: seq<real>)
    requires Norm(num, q) != 0.0
    ensures |u| == |q|
  {
    Scale(q, 1.0 / Norm(num, q))
  }

  /** Normalising gives a quaternion of unit length. */
  lemma NormalizeUnit(num: Numerics, q: seq<real>)
    requires Lawful(num)
    requires 0.0 < SqNorm(q)
    ensures Norm(num, q) != 0.0
    ensures SqNorm(Normalize(num, q)) == 1.0
  {
    var s := Norm(num, q);
    SqNormScale(q, 1.0 / s);
    InverseSquare(s);
  }

  /** abs(np.clip(dot, -1.0, 1.0)): the cosine of half the rotation angle. */
  function ClippedAbsDot(u: seq<real>, v: seq<real>): (c: real)
    ensures 0.0 <= c <= 1.0
  {
    Abs(Clip(Dot(u, v)))
  }

  /** quaternion_angle_distance: the rotation angle, in degrees, between the
      rotations two quaternions stand for. Defined where both norms are
      nonzero; `AngleWithin` covers the zero-norm cases. */
  function QuaternionAngleDistance(num: Numerics, q1: seq<real>, q2: seq<real>): real
    requires Norm(num, q1) != 0.0 && Norm(num, q2) != 0.0
  {
    2.0 * num.arccosDegrees(ClippedAbsDot(Normalize(num, q1), Normalize(num, q2)))
  }

  /** The angle lies in [0, 180] degrees: twice an arc cosine of a value in
      [0, 1]. */
  lemma QuaternionAngleRange(num: Numerics, q1: seq<real>, q2: seq<real>)
    requires Lawful(num)
    requires 0.0 < SqNorm(q1) && 0.0 < SqNorm(q2)
    ensures Norm(num, q1) != 0.0 && Norm(num, q2) != 0.0
    ensures 0.0 <= QuaternionAngleDistance(num, q1, q2) <= 180.0
  {
  }

  lemma QuaternionAngleSymmetric(num: Numerics, q1: seq<real>, q2: seq<real>)
    requires Lawful(num)
    requires 0.0 < SqNorm(q1) && 0.0 < SqNorm(q2)
    ensures QuaternionAngleDistance(num, q1, q2) == QuaternionAngleDistance(num, q2, q1)
  {
    DotSymmetric(Normalize(num, q1), Normalize(num, q2));
  }

  lemma ScaleNeg(v: seq<real>, k: real)
    ensures Scale(Neg(v), k) == Neg(Scale(v, k))
  {
    forall i | 0 <= i < |v|
      ensures Scale(Neg(v), k)[i] == Neg(Scale(v, k))[i]
    {
      assert (-v[i]) * k == -(v[i] * k);
    }
  }

  lemma NormalizeNeg(num: Numerics, q: seq<real>)
    requires Lawful(num)
    requires 0.0 < SqNorm(q)
    ensures 0.0 < SqNorm(Neg(q))
    ensures Normalize(num, Neg(q)) == Neg(Normalize(num, q))
  {
    SqNormNeg(q);
    ScaleNeg(q, 1.0 / num.sqrt(SqNorm(q)));
  }

  lemma ClippedAbsDotNeg(u: seq<real>, v: seq<real>)
    ensures ClippedAbsDot(Neg(u), v) == ClippedAbsDot(u, v)
    ensures ClippedAbsDot(u, Neg(v)) == ClippedAbsDot(u, v)
  {
    DotNegLeft(u, v);
    DotNegRight(u, v);
  }

  /** Double cover: q and -q stand for the same rotation, so negating either
      argument leaves the angle unchanged. */
  lemma QuaternionAngleDoubleCover(num: Numerics, q1: seq<real>, q2: seq<real>)
    requires Lawful(num)
    requires 0.0 < SqNorm(q1) && 0.0 < SqNorm(q2)
    ensures 0.0 < SqNorm(Neg(q1)) && 0.0 < SqNorm(Neg(q2))
    ensures QuaternionAngleDistance(num, Neg(q1), q2) == QuaternionAngleDistance(num, q1, q2)
    ensures QuaternionAngleDistance(num, q1, Neg(q2)) == QuaternionAngleDistance(num, q1, q2)
  {
    NormalizeNeg(num, q1);
    NormalizeNeg(num, q2);
    ClippedAbsDotNeg(Normalize(num, q1), Normalize(num, q2));
  }

  /** A rotation is at angle 0 from itself and from its negated quaternion. */
  lemma QuaternionAngleSelf(num: Numerics, q: seq<real>)
    requires Lawful(num)
    requires 0.0 < SqNorm(q)
    ensures 0.0 < SqNorm(Neg(q))
    ensures QuaternionAngleDistance(num, q, q) == 0.0
    ensures QuaternionAngleDistance(num, q, Neg(q)) == 0.0
  {
    NormalizeUnit(num, q);
    var u := Normalize(num, q);
    DotSelf(u);
    assert ClippedAbsDot(u, u) == 1.0;
    QuaternionAngleDoubleCover(num, q, q);
  }

  /** The angle test of the clustering: `angle_diff <= angle_tolerance`.
      Two empty quaternion slices (metric vectors of at most three entries)
      stay empty when divided by their zero norm, and np.dot of two empty
      arrays is 0.0, so the angle is 2 * arccos(0) = 180 degrees. For a
      quaternion of nonzero length whose norm is zero the division yields
      NaN components, the angle is NaN, and NaN <= t is false, so such a
      pair is never within tolerance. */
  predicate AngleWithin(num: Numerics, q1: seq<real>, q2: seq<real>, tolerance: real) {
    if |q1| == 0 && |q2| == 0 then 180.0 <= tolerance
    else
      && Norm(num, q1) != 0.0
      && Norm(num, q2) != 0.0
      && QuaternionAngleDistance(num, q1, q2) <= tolerance
  }

  /** The angle test on empty slices passes exactly for tolerances of at
      least 180 degrees; on a quaternion of nonzero length and norm zero it
      never passes. */
  lemma AngleWithinDegenerate(num: Numerics, q1: seq<real>, q2: seq<real>, tolerance: real)
    requires Lawful(num)
    ensures |q1| == 0 && |q2| == 0 ==> (AngleWithin(num, q1, q2, tolerance) <==> 180.0 <= tolerance)
    ensures 0 < |q1| && SqNorm(q1) == 0.0 ==> !AngleWithin(num, q1, q2, tolerance)
    ensures 0 < |q2| && SqNorm(q2) == 0.0 ==> !AngleWithin(num, q1, q2, tolerance)
  {
    NormZero(num, q1);
    NormZero(num, q2);
  }
}
