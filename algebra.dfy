/** The linear-algebra kernel shared by both renderers: 3- and 4-vectors,
    4x4 row-major matrices, homogeneous points and planes. Every number
    is an exact real. */
module Algebra {
  import opened Wrappers

  /** The source's `[x, y, z]` tuple. */
  datatype Vector3 = Vector3(x: real, y: real, z: real)

  type Vector4 = v: seq<real> | |v| == 4 witness [0.0, 0.0, 0.0, 0.0]

  predicate Is4x4(m: seq<seq<real>>) {
    |m| == 4 && forall i | 0 <= i < 4 :: |m[i]| == 4
  }

  /** A 4x4 matrix, as a list of four rows. */
  type Matrix4x4 = m: seq<seq<real>> | Is4x4(m)
    witness [[0.0, 0.0, 0.0, 0.0], [0.0, 0.0, 0.0, 0.0], [0.0, 0.0, 0.0, 0.0], [0.0, 0.0, 0.0, 0.0]]

  datatype Point3D = Point3D(x: real, y: real, z: real)

  /** The plane of points `p` with `normal . p + distance == 0`. */
  datatype Plane = Plane(normal: Vector3, distance: real)

  datatype Line3D = Line3D(start: Point3D, end: Point3D)

  // ----- vectors -----

  function DotProduct(v1: Vector3, v2: Vector3): real {
    v1.x * v2.x + v1.y * v2.y + v1.z * v2.z
  }

  function DotProduct4(v1: Vector4, v2: Vector4): real {
    v1[0] * v2[0] + v1[1] * v2[1] + v1[2] * v2[2] + v1[3] * v2[3]
  }

  function Subtract(v1: Vector3, v2: Vector3): Vector3 {
    Vector3(v1.x - v2.x, v1.y - v2.y, v1.z - v2.z)
  }

  function Add(v1: Vector3, v2: Vector3): Vector3 {
    Vector3(v1.x + v2.x, v1.y + v2.y, v1.z + v2.z)
  }

  /** The source's `multiply`: the vector `v` scaled by `x`. */
  function Multiply(x: real, v: Vector3): Vector3 {
    Vector3(x * v.x, x * v.y, x * v.z)
  }

  const Zero: Vector3 := Vector3(0.0, 0.0, 0.0)

  /** Subtracting `w` undoes adding it, and adding undoes subtracting. */
  lemma SubtractUndoesAdd(v: Vector3, w: Vector3)
    ensures Subtract(Add(v, w), w) == v
    ensures Add(Subtract(v, w), w) == v
  {
  }

  lemma AddCommutative(v: Vector3, w: Vector3)
    ensures Add(v, w) == Add(w, v)
  {
  }

  lemma DotProductCommutative(v: Vector3, w: Vector3)
    ensures DotProduct(v, w) == DotProduct(w, v)
  {
  }

  /** The dot product is linear in its first argument. */
  lemma DotProductLinear(u: Vector3, v: Vector3, k: real, w: Vector3)
    ensures DotProduct(Add(u, v), w) == DotProduct(u, w) + DotProduct(v, w)
    ensures DotProduct(Subtract(u, v), w) == DotProduct(u, w) - DotProduct(v, w)
    ensures DotProduct(Multiply(k, u), w) == k * DotProduct(u, w)
  {
  }

  /** A vector has a non-negative squared length, positive unless it is
      the zero vector. */
  lemma DotSelfPositive(v: Vector3)
    ensures 0.0 <= DotProduct(v, v)
    ensures v != Zero ==> 0.0 < DotProduct(v, v)
  {
    assert DotProduct(v, v) == Square(v.x) + Square(v.y) + Square(v.z);
    SquareNonNegative(v.x);
    SquareNonNegative(v.y);
    SquareNonNegative(v.z);
    if v.x != 0.0 {
      SquarePositive(v.x);
    }
    if v.y != 0.0 {
      SquarePositive(v.y);
    }
    if v.z != 0.0 {
      SquarePositive(v.z);
    }
  }

  /** A vector with a positive dot product against anything is not zero. */
  lemma PositiveDotSelf(n: Vector3, l: Vector3)
    requires 0.0 < DotProduct(n, l)
    ensures 0.0 < DotProduct(n, n)
  {
    DotSelfPositive(n);
  }

  // Facts about squares go through `Square`, and the positive case through a
  // product of two equal parameters, so that the solver keeps them.
  function Square(x: real): real {
    x * x
  }

  lemma SquarePositive(x: real)
    requires x != 0.0
    ensures 0.0 < Square(x)
  {
    if 0.0 < x {
      SquareOfPositive(x, x);
    } else {
      SquareOfPositive(-x, -x);
      assert Square(-x) == Square(x);
    }
  }

  lemma SquareNonNegative(x: real)
    ensures 0.0 <= Square(x)
  {
    if x != 0.0 {
      SquarePositive(x);
    }
  }

  lemma SquareOfPositive(x: real, y: real)
    requires 0.0 < x && x == y
    ensures 0.0 < Square(x)
  {
    ProductPositive(x, y);
    assert Square(x) == x * y;
  }

  lemma ProductPositive(x: real, y: real)
    requires 0.0 < x && 0.0 < y
    ensures 0.0 < x * y
  {
  }

  lemma ProductNonNegative(x: real, y: real)
    requires 0.0 <= x && 0.0 <= y
    ensures 0.0 <= x * y
  {
  }

  // ----- scalars -----

  /** `Math.min(Math.max(x, min), max)`. */
  function Clamp(x: real, min: real, max: real): (r: real)
    ensures min <= max ==> min <= r <= max
    ensures min <= x <= max ==> r == x
    ensures x <= min && min <= max ==> r == min
    ensures max <= x ==> r == max
  {
    var low := if x > min then x else min;
    if low < max then low else max
  }

  /** How many times `for (let i = i0; i <= i1; i++)` runs. */
  function StepCount(i0: real, i1: real): nat {
    if i1 < i0 then 0 else (i1 - i0).Floor + 1
  }

  /** The `k`-th index `i0 + k` stays at or below `i1` exactly while
      `k < StepCount(i0, i1)`. */
  lemma StepCountBound(i0: real, i1: real, k: nat)
    ensures i0 + k as real <= i1 <==> k < StepCount(i0, i1)
  {
  }

  /** The list `interpolate(i0, d0, i1, d1)` computes: one value for each
      index from `i0` up to `i1`, starting at `d0` and growing by the slope
      `(d1 - d0) / (i1 - i0)`; the single value `d0` when `i0 == i1`. */
  function Interpolation(i0: real, d0: real, i1: real, d1: real): seq<real> {
    if i0 == i1 then [d0]
    else
      var a := (d1 - d0) / (i1 - i0);
      seq(StepCount(i0, i1), k => d0 + k as real * a)
  }

  /** `interpolate`: pushes `d` for every index `i` from `i0` while
      `i <= i1`, adding the slope to `d` after each push. */
  method Interpolate(i0: real, d0: real, i1: real, d1: real) returns (values: seq<real>)
    ensures values == Interpolation(i0, d0, i1, d1)
  {
    if i0 == i1 {
      return [d0];
    }
    values := [];
    var a := (d1 - d0) / (i1 - i0);
    var d := d0;
    var i := i0;
    while i <= i1
      invariant i == i0 + |values| as real
      invariant d == d0 + |values| as real * a
      invariant |values| <= StepCount(i0, i1)
      invariant forall k | 0 <= k < |values| :: values[k] == d0 + k as real * a
      decreases StepCount(i0, i1) - |values|
    {
      StepCountBound(i0, i1, |values|);
      values := values + [d];
      d := d + a;
      i := i + 1.0;
    }
    StepCountBound(i0, i1, |values|);
    assert |values| == StepCount(i0, i1);
    assert forall k | 0 <= k < |values| :: values[k] == Interpolation(i0, d0, i1, d1)[k];
  }

  /** Equal end indices give exactly `[d0]`. */
  lemma InterpolationSingle(i0: real, d0: real, d1: real)
    ensures Interpolation(i0, d0, i0, d1) == [d0]
  {
  }

  /** An end index below the start gives nothing. */
  lemma InterpolationEmpty(i0: real, d0: real, i1: real, d1: real)
    requires i1 < i0
    ensures Interpolation(i0, d0, i1, d1) == []
  {
  }

  /** For `i0 < i1` there are `floor(i1 - i0) + 1` values; the first is `d0`
      and neighbours differ by the slope `(d1 - d0) / (i1 - i0)`. */
  lemma InterpolationSteps(i0: real, d0: real, i1: real, d1: real)
    requires i0 < i1
    ensures |Interpolation(i0, d0, i1, d1)| == (i1 - i0).Floor + 1
    ensures Interpolation(i0, d0, i1, d1)[0] == d0
    ensures forall k | 0 <= k < |Interpolation(i0, d0, i1, d1)| - 1 ::
              Interpolation(i0, d0, i1, d1)[k + 1] - Interpolation(i0, d0, i1, d1)[k] == (d1 - d0) / (i1 - i0)
  {
  }

  /** When `i1 - i0` is a positive whole number `n`, there are `n + 1`
      values and the last one is exactly `d1`. */
  lemma InterpolationEndsAtD1(i0: real, d0: real, i1: real, d1: real, n: nat)
    requires 0 < n && i1 - i0 == n as real
    ensures |Interpolation(i0, d0, i1, d1)| == n + 1
    ensures Interpolation(i0, d0, i1, d1)[n] == d1
  {
    var a := (d1 - d0) / (i1 - i0);
    assert a * n as real == d1 - d0;
  }

  /** Dividing by a positive number keeps the sign. */
  lemma QuotientFollowsSign(x: real, y: real)
    requires 0.0 < y
    ensures 0.0 <= x ==> 0.0 <= x / y
    ensures x <= 0.0 ==> x / y <= 0.0
  {
    var q := x / y;
    assert q * y == x;
    if 0.0 <= x && q < 0.0 {
      ProductPositive(-q, y);
    }
    if x <= 0.0 && 0.0 < q {
      ProductPositive(q, y);
    }
  }

  /** The values follow the direction of `d1 - d0`. */
  lemma InterpolationMonotonic(i0: real, d0: real, i1: real, d1: real, j: nat, k: nat)
    requires j <= k < |Interpolation(i0, d0, i1, d1)|
    ensures d0 <= d1 ==> Interpolation(i0, d0, i1, d1)[j] <= Interpolation(i0, d0, i1, d1)[k]
    ensures d1 <= d0 ==> Interpolation(i0, d0, i1, d1)[k] <= Interpolation(i0, d0, i1, d1)[j]
  {
    if i0 != i1 {
      var a := (d1 - d0) / (i1 - i0);
      var gap := (k - j) as real;
      assert Interpolation(i0, d0, i1, d1)[k] - Interpolation(i0, d0, i1, d1)[j] == gap * a;
      assert i0 < i1 by {
        if i1 < i0 {
          InterpolationEmpty(i0, d0, i1, d1);
        }
      }
      QuotientFollowsSign(d1 - d0, i1 - i0);
      if d0 <= d1 {
        ProductNonNegative(gap, a);
      } else {
        ProductNonNegative(gap, -a);
        assert gap * -a == -(gap * a);
      }
    }
  }

  // ----- 4x4 matrices -----

  /** Splits an index below 4 into its four cases. */
  lemma Index4(i: int)
    requires 0 <= i < 4
    ensures i == 0 || i == 1 || i == 2 || i == 3
  {
  }

  /** Two 4-vectors with the same four entries are equal. */
  lemma Vector4Equal(u: Vector4, w: Vector4)
    requires u[0] == w[0] && u[1] == w[1] && u[2] == w[2] && u[3] == w[3]
    ensures u == w
  {
    forall k | 0 <= k < 4
      ensures u[k] == w[k]
    {
      Index4(k);
    }
  }

  /** Two matrices with the same entries are equal. */
  lemma MatrixEqual(a: Matrix4x4, b: Matrix4x4)
    requires forall i, j | 0 <= i < 4 && 0 <= j < 4 :: a[i][j] == b[i][j]
    ensures a == b
  {
    forall i | 0 <= i < 4
      ensures a[i] == b[i]
    {
      assert |a[i]| == 4 == |b[i]|;
    }
  }

  /** Entry `(i, j)` of `m1 * m2`: row `i` of `m1` times column `j` of `m2`. */
  function ProductEntry(m1: Matrix4x4, m2: Matrix4x4, i: nat, j: nat): real
    requires i < 4 && j < 4
  {
    m1[i][0] * m2[0][j] + m1[i][1] * m2[1][j] + m1[i][2] * m2[2][j] + m1[i][3] * m2[3][j]
  }

  /** The first `n` terms of `ProductEntry(m1, m2, i, j)`, as accumulated
      by the innermost loop of `multiplyMatrix4x4`. */
  function PartialProductEntry(m1: Matrix4x4, m2: Matrix4x4, i: nat, j: nat, n: nat): real
    requires i < 4 && j < 4 && n <= 4
  {
    if n == 0 then 0.0 else PartialProductEntry(m1, m2, i, j, n - 1) + m1[i][n - 1] * m2[n - 1][j]
  }

  function MatrixProduct(m1: Matrix4x4, m2: Matrix4x4): Matrix4x4 {
    seq(4, i requires 0 <= i < 4 => seq(4, j requires 0 <= j < 4 => ProductEntry(m1, m2, i, j)))
  }

  function Transpose(m: Matrix4x4): Matrix4x4 {
    seq(4, i requires 0 <= i < 4 => seq(4, j requires 0 <= j < 4 => m[j][i]))
  }

  function MatrixVector(m: Matrix4x4, v: Vector4): Vector4 {
    seq(4, i requires 0 <= i < 4 => DotProduct4(m[i], v))
  }

  const Identity: Matrix4x4 :=
    [[1.0, 0.0, 0.0, 0.0], [0.0, 1.0, 0.0, 0.0], [0.0, 0.0, 1.0, 0.0], [0.0, 0.0, 0.0, 1.0]]

  /** `m` with entry `(i, j)` replaced by `x`. */
  function SetEntry(m: Matrix4x4, i: nat, j: nat, x: real): (r: Matrix4x4)
    requires i < 4 && j < 4
    ensures forall a, b | 0 <= a < 4 && 0 <= b < 4 :: r[a][b] == if a == i && b == j then x else m[a][b]
  {
    m[i := m[i][j := x]]
  }

  /** All four terms make the whole entry. */
  lemma PartialProductComplete(m1: Matrix4x4, m2: Matrix4x4, i: nat, j: nat)
    requires i < 4 && j < 4
    ensures PartialProductEntry(m1, m2, i, j, 4) == ProductEntry(m1, m2, i, j)
  {
    assert PartialProductEntry(m1, m2, i, j, 1) == m1[i][0] * m2[0][j];
    assert PartialProductEntry(m1, m2, i, j, 2) == m1[i][0] * m2[0][j] + m1[i][1] * m2[1][j];
    assert PartialProductEntry(m1, m2, i, j, 3)
        == m1[i][0] * m2[0][j] + m1[i][1] * m2[1][j] + m1[i][2] * m2[2][j];
  }

  /** `multiplyMatrix4x4`: fills a zeroed matrix entry by entry, adding
      `m1[i][k] * m2[k][j]` for `k` from 0 to 3. */
  method MultiplyMatrix4x4(m1: Matrix4x4, m2: Matrix4x4) returns (result: Matrix4x4)
    ensures forall i, j | 0 <= i < 4 && 0 <= j < 4 ::
              result[i][j] == m1[i][0] * m2[0][j] + m1[i][1] * m2[1][j] + m1[i][2] * m2[2][j] + m1[i][3] * m2[3][j]
    ensures result == MatrixProduct(m1, m2)
  {
    result := [[0.0, 0.0, 0.0, 0.0], [0.0, 0.0, 0.0, 0.0], [0.0, 0.0, 0.0, 0.0], [0.0, 0.0, 0.0, 0.0]];
    for i := 0 to 4
      invariant forall r, c | 0 <= r < i && 0 <= c < 4 :: result[r][c] == ProductEntry(m1, m2, r, c)
      invariant forall r, c | i <= r < 4 && 0 <= c < 4 :: result[r][c] == 0.0
    {
      for j := 0 to 4
        invariant forall r, c | 0 <= r < i && 0 <= c < 4 :: result[r][c] == ProductEntry(m1, m2, r, c)
        invariant forall c | 0 <= c < j :: result[i][c] == ProductEntry(m1, m2, i, c)
        invariant forall c | j <= c < 4 :: result[i][c] == 0.0
        invariant forall r, c | i < r < 4 && 0 <= c < 4 :: result[r][c] == 0.0
      {
        for k := 0 to 4
          invariant forall r, c | 0 <= r < i && 0 <= c < 4 :: result[r][c] == ProductEntry(m1, m2, r, c)
          invariant forall c | 0 <= c < j :: result[i][c] == ProductEntry(m1, m2, i, c)
          invariant result[i][j] == PartialProductEntry(m1, m2, i, j, k)
          invariant forall c | j < c < 4 :: result[i][c] == 0.0
          invariant forall r, c | i < r < 4 && 0 <= c < 4 :: result[r][c] == 0.0
        {
          result := SetEntry(result, i, j, result[i][j] + m1[i][k] * m2[k][j]);
        }
        PartialProductComplete(m1, m2, i, j);
      }
    }
    MatrixEqual(result, MatrixProduct(m1, m2));
  }

  /** `transposeMatrix4x4`: `result[i][j] = m[j][i]` for every entry. */
  method TransposeMatrix4x4(m: Matrix4x4) returns (result: Matrix4x4)
    ensures forall i, j | 0 <= i < 4 && 0 <= j < 4 :: result[i][j] == m[j][i]
    ensures result == Transpose(m)
  {
    result := [[0.0, 0.0, 0.0, 0.0], [0.0, 0.0, 0.0, 0.0], [0.0, 0.0, 0.0, 0.0], [0.0, 0.0, 0.0, 0.0]];
    for i := 0 to 4
      invariant forall r, c | 0 <= r < i && 0 <= c < 4 :: result[r][c] == m[c][r]
    {
      for j := 0 to |m|
        invariant forall r, c | 0 <= r < i && 0 <= c < 4 :: result[r][c] == m[c][r]
        invariant forall c | 0 <= c < j :: result[i][c] == m[c][i]
      {
        result := result[i := result[i][j := m[j][i]]];
      }
    }
    MatrixEqual(result, Transpose(m));
  }

  /** `multiplyMatrix4x4Vector4`: entry `i` is row `i` of `m` dotted with `v`. */
  method MultiplyMatrix4x4Vector4(m: Matrix4x4, v: Vector4) returns (result: Vector4)
    ensures forall i | 0 <= i < 4 :: result[i] == DotProduct4(m[i], v)
    ensures result == MatrixVector(m, v)
  {
    result := [0.0, 0.0, 0.0, 0.0];
    for i := 0 to 4
      invariant forall r | 0 <= r < i :: result[r] == DotProduct4(m[r], v)
    {
      result := result[i := DotProduct4(m[i], v)];
    }
  }

  /** Transposing twice gives the matrix back. */
  lemma TransposeInvolutive(m: Matrix4x4)
    ensures Transpose(Transpose(m)) == m
  {
    MatrixEqual(Transpose(Transpose(m)), m);
  }

  /** The transpose of a product is the product of the transposes, in the
      other order. */
  lemma TransposeOfProduct(a: Matrix4x4, b: Matrix4x4)
    ensures Transpose(MatrixProduct(a, b)) == MatrixProduct(Transpose(b), Transpose(a))
  {
    MatrixEqual(Transpose(MatrixProduct(a, b)), MatrixProduct(Transpose(b), Transpose(a)));
  }

  /** The identity matrix is neutral on both sides. */
  lemma IdentityNeutral(m: Matrix4x4)
    ensures MatrixProduct(Identity, m) == m
    ensures MatrixProduct(m, Identity) == m
  {
    forall i, j | 0 <= i < 4 && 0 <= j < 4
      ensures MatrixProduct(Identity, m)[i][j] == m[i][j] && MatrixProduct(m, Identity)[i][j] == m[i][j]
    {
      Index4(i);
      Index4(j);
    }
    MatrixEqual(MatrixProduct(Identity, m), m);
    MatrixEqual(MatrixProduct(m, Identity), m);
  }

  /** Applying `a * b` to a vector is applying `b`, then `a`. */
  lemma ProductActsAsComposition(a: Matrix4x4, b: Matrix4x4, v: Vector4)
    ensures MatrixVector(MatrixProduct(a, b), v) == MatrixVector(a, MatrixVector(b, v))
  {
    forall i | 0 <= i < 4
      ensures MatrixVector(MatrixProduct(a, b), v)[i] == MatrixVector(a, MatrixVector(b, v))[i]
    {
      CompositionRow(a, b, v, i);
    }
    Vector4Equal(MatrixVector(MatrixProduct(a, b), v), MatrixVector(a, MatrixVector(b, v)));
  }

  /** Row `i` of `ProductActsAsComposition`: row `i` of `a * b` is the
      combination of the rows of `b` weighted by row `i` of `a`, and the dot
      product is linear. */
  lemma CompositionRow(a: Matrix4x4, b: Matrix4x4, v: Vector4, i: nat)
    requires i < 4
    ensures MatrixVector(MatrixProduct(a, b), v)[i] == MatrixVector(a, MatrixVector(b, v))[i]
  {
    var p, w := MatrixProduct(a, b), MatrixVector(b, v);
    var r0, r1 := Scale4(a[i][0], b[0]), Scale4(a[i][1], b[1]);
    var r2, r3 := Scale4(a[i][2], b[2]), Scale4(a[i][3], b[3]);
    ProductRow(a, b, i);
    assert p[i] == Add4(Add4(Add4(r0, r1), r2), r3);
    Dot4Linear(Add4(Add4(r0, r1), r2), r3, v);
    Dot4Linear(Add4(r0, r1), r2, v);
    Dot4Linear(r0, r1, v);
    Dot4Scale(a[i][0], b[0], v);
    Dot4Scale(a[i][1], b[1], v);
    Dot4Scale(a[i][2], b[2], v);
    Dot4Scale(a[i][3], b[3], v);
    assert MatrixVector(p, v)[i] == DotProduct4(p[i], v);
    assert MatrixVector(a, w)[i] == DotProduct4(a[i], w);
  }

  function Scale4(k: real, u: Vector4): Vector4 {
    seq(4, j requires 0 <= j < 4 => k * u[j])
  }

  function Add4(u: Vector4, w: Vector4): Vector4 {
    seq(4, j requires 0 <= j < 4 => u[j] + w[j])
  }

  lemma Dot4Linear(u: Vector4, w: Vector4, v: Vector4)
    ensures DotProduct4(Add4(u, w), v) == DotProduct4(u, v) + DotProduct4(w, v)
  {
  }

  lemma Dot4Scale(k: real, u: Vector4, v: Vector4)
    ensures DotProduct4(Scale4(k, u), v) == k * DotProduct4(u, v)
  {
  }

  /** Row `i` of `a * b` is `a[i][0] b[0] + a[i][1] b[1] + a[i][2] b[2] + a[i][3] b[3]`. */
  lemma ProductRow(a: Matrix4x4, b: Matrix4x4, i: nat)
    requires i < 4
    ensures MatrixProduct(a, b)[i]
         == Add4(Add4(Add4(Scale4(a[i][0], b[0]), Scale4(a[i][1], b[1])), Scale4(a[i][2], b[2])),
                 Scale4(a[i][3], b[3]))
  {
    var row := Add4(Add4(Add4(Scale4(a[i][0], b[0]), Scale4(a[i][1], b[1])), Scale4(a[i][2], b[2])),
                    Scale4(a[i][3], b[3]));
    assert forall j | 0 <= j < 4 :: MatrixProduct(a, b)[i][j] == row[j];
    Vector4Equal(MatrixProduct(a, b)[i], row);
  }

  // ----- transform builders -----

  function CreateTranslationMatrix4x4(v: Vector3): Matrix4x4 {
    [[1.0, 0.0, 0.0, v.x], [0.0, 1.0, 0.0, v.y], [0.0, 0.0, 1.0, v.z], [0.0, 0.0, 0.0, 1.0]]
  }

  function CreateScaleMatrix4x4(scale: real): Matrix4x4 {
    [[scale, 0.0, 0.0, 0.0], [0.0, scale, 0.0, 0.0], [0.0, 0.0, scale, 0.0], [0.0, 0.0, 0.0, 1.0]]
  }

  /** The rotation builders with `c` and `s` standing for the cosine and
      sine of the angle (`Math.cos`, `Math.sin` are not modelled). */
  function CreateRotationMatrix4x4X(c: real, s: real): Matrix4x4 {
    [[1.0, 0.0, 0.0, 0.0], [0.0, c, -s, 0.0], [0.0, s, c, 0.0], [0.0, 0.0, 0.0, 1.0]]
  }

  function CreateRotationMatrix4x4Y(c: real, s: real): Matrix4x4 {
    [[c, 0.0, s, 0.0], [0.0, 1.0, 0.0, 0.0], [-s, 0.0, c, 0.0], [0.0, 0.0, 0.0, 1.0]]
  }

  function CreateRotationMatrix4x4Z(c: real, s: real): Matrix4x4 {
    [[c, -s, 0.0, 0.0], [s, c, 0.0, 0.0], [0.0, 0.0, 1.0, 0.0], [0.0, 0.0, 0.0, 1.0]]
  }

  /** `convertPoint3dToHomogeneous`: the point with weight 1; what that
      weight is for is stated by `TranslationAddsOffset` and
      `ScaleMultipliesCoordinates`. */
  function ConvertPoint3dToHomogeneous(p: Point3D): Vector4 {
    [p.x, p.y, p.z, 1.0]
  }

  /** The translation by `t` moves a homogeneous point by `t` and keeps its
      weight 1. */
  lemma TranslationAddsOffset(t: Vector3, p: Point3D)
    ensures MatrixVector(CreateTranslationMatrix4x4(t), ConvertPoint3dToHomogeneous(p))
         == [p.x + t.x, p.y + t.y, p.z + t.z, 1.0]
  {
    Vector4Equal(MatrixVector(CreateTranslationMatrix4x4(t), ConvertPoint3dToHomogeneous(p)),
                 [p.x + t.x, p.y + t.y, p.z + t.z, 1.0]);
  }

  /** The scale by `s` multiplies every coordinate by `s` and keeps the weight 1. */
  lemma ScaleMultipliesCoordinates(s: real, p: Point3D)
    ensures MatrixVector(CreateScaleMatrix4x4(s), ConvertPoint3dToHomogeneous(p))
         == [s * p.x, s * p.y, s * p.z, 1.0]
  {
    Vector4Equal(MatrixVector(CreateScaleMatrix4x4(s), ConvertPoint3dToHomogeneous(p)),
                 [s * p.x, s * p.y, s * p.z, 1.0]);
  }

  /** Translations compose by adding their offsets. */
  lemma TranslationsCompose(a: Vector3, b: Vector3)
    ensures MatrixProduct(CreateTranslationMatrix4x4(a), CreateTranslationMatrix4x4(b))
         == CreateTranslationMatrix4x4(Add(a, b))
  {
    var p, q := MatrixProduct(CreateTranslationMatrix4x4(a), CreateTranslationMatrix4x4(b)),
      CreateTranslationMatrix4x4(Add(a, b));
    forall i, j | 0 <= i < 4 && 0 <= j < 4
      ensures p[i][j] == q[i][j]
    {
      Index4(i);
      Index4(j);
    }
    MatrixEqual(p, q);
  }

  /** Translating by `-t` undoes translating by `t`. */
  lemma TranslationInverse(t: Vector3)
    ensures MatrixProduct(CreateTranslationMatrix4x4(Multiply(-1.0, t)), CreateTranslationMatrix4x4(t)) == Identity
  {
    TranslationsCompose(Multiply(-1.0, t), t);
    assert Add(Multiply(-1.0, t), t) == Zero;
  }

  /** With `c * c + s * s == 1` each rotation is orthonormal: its transpose
      is its inverse on both sides. */
  lemma RotationTransposeIsInverse(c: real, s: real)
    requires c * c + s * s == 1.0
    ensures MatrixProduct(Transpose(CreateRotationMatrix4x4X(c, s)), CreateRotationMatrix4x4X(c, s)) == Identity
    ensures MatrixProduct(CreateRotationMatrix4x4X(c, s), Transpose(CreateRotationMatrix4x4X(c, s))) == Identity
    ensures MatrixProduct(Transpose(CreateRotationMatrix4x4Y(c, s)), CreateRotationMatrix4x4Y(c, s)) == Identity
    ensures MatrixProduct(CreateRotationMatrix4x4Y(c, s), Transpose(CreateRotationMatrix4x4Y(c, s))) == Identity
    ensures MatrixProduct(Transpose(CreateRotationMatrix4x4Z(c, s)), CreateRotationMatrix4x4Z(c, s)) == Identity
    ensures MatrixProduct(CreateRotationMatrix4x4Z(c, s), Transpose(CreateRotationMatrix4x4Z(c, s))) == Identity
  {
    RotationXOrthonormal(c, s);
    RotationXOrthonormalRight(c, s);
    RotationYOrthonormal(c, s);
    RotationYOrthonormalRight(c, s);
    RotationZOrthonormal(c, s);
    RotationZOrthonormalRight(c, s);
  }

  lemma RotationXOrthonormal(c: real, s: real)
    requires c * c + s * s == 1.0
    ensures MatrixProduct(Transpose(CreateRotationMatrix4x4X(c, s)), CreateRotationMatrix4x4X(c, s)) == Identity
  {
    var m := CreateRotationMatrix4x4X(c, s);
    forall i, j | 0 <= i < 4 && 0 <= j < 4
      ensures MatrixProduct(Transpose(m), m)[i][j] == Identity[i][j]
    {
      Index4(i);
      Index4(j);
    }
    MatrixEqual(MatrixProduct(Transpose(m), m), Identity);
  }

  lemma RotationXOrthonormalRight(c: real, s: real)
    requires c * c + s * s == 1.0
    ensures MatrixProduct(CreateRotationMatrix4x4X(c, s), Transpose(CreateRotationMatrix4x4X(c, s))) == Identity
  {
    var m := CreateRotationMatrix4x4X(c, s);
    forall i, j | 0 <= i < 4 && 0 <= j < 4
      ensures MatrixProduct(m, Transpose(m))[i][j] == Identity[i][j]
    {
      Index4(i);
      Index4(j);
    }
    MatrixEqual(MatrixProduct(m, Transpose(m)), Identity);
  }

  lemma RotationYOrthonormal(c: real, s: real)
    requires c * c + s * s == 1.0
    ensures MatrixProduct(Transpose(CreateRotationMatrix4x4Y(c, s)), CreateRotationMatrix4x4Y(c, s)) == Identity
  {
    var m := CreateRotationMatrix4x4Y(c, s);
    forall i, j | 0 <= i < 4 && 0 <= j < 4
      ensures MatrixProduct(Transpose(m), m)[i][j] == Identity[i][j]
    {
      Index4(i);
      Index4(j);
    }
    MatrixEqual(MatrixProduct(Transpose(m), m), Identity);
  }

  lemma RotationYOrthonormalRight(c: real, s: real)
    requires c * c + s * s == 1.0
    ensures MatrixProduct(CreateRotationMatrix4x4Y(c, s), Transpose(CreateRotationMatrix4x4Y(c, s))) == Identity
  {
    var m := CreateRotationMatrix4x4Y(c, s);
    forall i, j | 0 <= i < 4 && 0 <= j < 4
      ensures MatrixProduct(m, Transpose(m))[i][j] == Identity[i][j]
    {
      Index4(i);
      Index4(j);
    }
    MatrixEqual(MatrixProduct(m, Transpose(m)), Identity);
  }

  lemma RotationZOrthonormal(c: real, s: real)
    requires c * c + s * s == 1.0
    ensures MatrixProduct(Transpose(CreateRotationMatrix4x4Z(c, s)), CreateRotationMatrix4x4Z(c, s)) == Identity
  {
    var m := CreateRotationMatrix4x4Z(c, s);
    forall i, j | 0 <= i < 4 && 0 <= j < 4
      ensures MatrixProduct(Transpose(m), m)[i][j] == Identity[i][j]
    {
      Index4(i);
      Index4(j);
    }
    MatrixEqual(MatrixProduct(Transpose(m), m), Identity);
  }

  lemma RotationZOrthonormalRight(c: real, s: real)
    requires c * c + s * s == 1.0
    ensures MatrixProduct(CreateRotationMatrix4x4Z(c, s), Transpose(CreateRotationMatrix4x4Z(c, s))) == Identity
  {
    var m := CreateRotationMatrix4x4Z(c, s);
    forall i, j | 0 <= i < 4 && 0 <= j < 4
      ensures MatrixProduct(m, Transpose(m))[i][j] == Identity[i][j]
    {
      Index4(i);
      Index4(j);
    }
    MatrixEqual(MatrixProduct(m, Transpose(m)), Identity);
  }

  // ----- planes -----

  /** `normal . point + distance`: zero on the plane, and its sign tells the
      side of the plane the point is on. */
  function GetSignedDistance(plane: Plane, point: Point3D): real {
    point.x * plane.normal.x + point.y * plane.normal.y + point.z * plane.normal.z + plane.distance
  }

  /** The point `start + t * (end - start)` of the line through the segment. */
  function PointOnLine(line: Line3D, t: real): Point3D {
    Point3D(line.start.x + t * (line.end.x - line.start.x),
            line.start.y + t * (line.end.y - line.start.y),
            line.start.z + t * (line.end.z - line.start.z))
  }

  /** `normal . (end - start)`, the divisor of `getIntersectionPoint`. */
  function IntersectionDenominator(plane: Plane, line: Line3D): real {
    (line.end.x - line.start.x) * plane.normal.x
    + (line.end.y - line.start.y) * plane.normal.y
    + (line.end.z - line.start.z) * plane.normal.z
  }

  /** `getIntersectionPoint`: the point where the line through the segment
      meets the plane. With a zero denominator (a segment parallel to the
      plane) JavaScript produces NaN or infinite coordinates: `None`. */
  function GetIntersectionPoint(plane: Plane, line: Line3D): (r: Option<Point3D>)
    ensures r.Some? <==> IntersectionDenominator(plane, line) != 0.0
    ensures r.Some? ==> GetSignedDistance(plane, r.value) == 0.0
    ensures r.Some? ==> exists t :: r.value == PointOnLine(line, t)
  {
    var numerator := -GetSignedDistance(plane, line.start);
    var denominator := IntersectionDenominator(plane, line);
    if denominator == 0.0 then None
    else
      var t := numerator / denominator;
      var p := PointOnLine(line, t);
      assert GetSignedDistance(plane, p) == GetSignedDistance(plane, line.start) + t * denominator;
      assert t * denominator == numerator;
      Some(p)
  }

  /** The signed distance changes linearly along the line. */
  lemma SignedDistanceAlongLine(plane: Plane, line: Line3D, t: real)
    ensures GetSignedDistance(plane, PointOnLine(line, t))
         == GetSignedDistance(plane, line.start) + t * IntersectionDenominator(plane, line)
  {
  }

  /** A segment whose ends are on opposite sides of the plane (as in plane
      clipping), in either order, meets it strictly between its endpoints. */
  lemma IntersectionBetweenEndpoints(plane: Plane, line: Line3D)
    requires GetSignedDistance(plane, line.start) > 0.0 > GetSignedDistance(plane, line.end)
          || GetSignedDistance(plane, line.start) < 0.0 < GetSignedDistance(plane, line.end)
    ensures GetIntersectionPoint(plane, line).Some?
    ensures exists t :: 0.0 < t < 1.0 && GetIntersectionPoint(plane, line).value == PointOnLine(line, t)
  {
    var ds, de := GetSignedDistance(plane, line.start), GetSignedDistance(plane, line.end);
    var den := IntersectionDenominator(plane, line);
    SignedDistanceAlongLine(plane, line, 1.0);
    assert de == ds + den;
    var t := -ds / den;
    if ds > 0.0 {
      CrossingTime(ds, -den);
      assert t == ds / -den;
    } else {
      CrossingTime(-ds, den);
    }
    assert GetIntersectionPoint(plane, line).value == PointOnLine(line, t);
  }

  /** A start at distance `a > 0` that moves by `-b` to the far side
      (`a < b`) crosses at the time `a / b`, strictly inside (0, 1). */
  lemma CrossingTime(a: real, b: real)
    requires 0.0 < a < b
    ensures 0.0 < a / b < 1.0
  {
    var t := a / b;
    assert t * b == a;
    if 1.0 <= t {
      ProductNonNegative(t - 1.0, b);
    }
  }

  /** A segment that starts on the plane meets it at its start. */
  lemma IntersectionAtStartOnPlane(plane: Plane, line: Line3D)
    requires GetSignedDistance(plane, line.start) == 0.0
    requires IntersectionDenominator(plane, line) != 0.0
    ensures GetIntersectionPoint(plane, line) == Some(line.start)
  {
    var t := -GetSignedDistance(plane, line.start) / IntersectionDenominator(plane, line);
    assert t == 0.0;
    assert PointOnLine(line, t) == line.start;
  }
}
