/**
 * The fixed-size vectors and matrices of src/mat_vec.h and src/mat_vec.cpp.
 *
 * A `vec<n>` of doubles is a `seq<real>` of length n and a `mat<r,c>` is a
 * sequence of r rows of length c. The source builds every result in a local
 * `ret` and returns it by value, so each operation is a function here.
 * Division by zero (a singular matrix, a zero `w`) yields infinities in the
 * source; here it is a precondition.
 */
module MatVec {

  type Vec = seq<real>
  type Mat = seq<Vec>

  // ---------------------------------------------------------------- vectors

  /** Dot product, accumulated from the last component down to the first, as the source's loop does. */
  function Dot(a: Vec, b: Vec): real
    requires |a| == |b|
    decreases |a|
  {
    if |a| == 0 then 0.0 else Dot(a[1..], b[1..]) + a[0] * b[0]
  }

  function Add(a: Vec, b: Vec): (r: Vec)
    requires |a| == |b|
    ensures |r| == |a|
  {
    seq(|a|, i requires 0 <= i < |a| => a[i] + b[i])
  }

  function Sub(a: Vec, b: Vec): (r: Vec)
    requires |a| == |b|
    ensures |r| == |a|
  {
    seq(|a|, i requires 0 <= i < |a| => a[i] - b[i])
  }

  /** Both `scale * v` and `v * scale`. */
  function Scale(s: real, v: Vec): (r: Vec)
    ensures |r| == |v|
  {
    seq(|v|, i requires 0 <= i < |v| => v[i] * s)
  }

  function Div(v: Vec, s: real): (r: Vec)
    requires s != 0.0
    ensures |r| == |v|
  {
    seq(|v|, i requires 0 <= i < |v| => v[i] / s)
  }

  /** `embed<n>(v, fill)`: the first components of v, then `fill` in every later slot. */
  function Embed(v: Vec, n: nat, fill: real): (r: Vec)
    ensures |r| == n
    ensures forall i :: 0 <= i < n && i < |v| ==> r[i] == v[i]
    ensures forall i :: |v| <= i < n ==> r[i] == fill
  {
    seq(n, i requires 0 <= i < n => if i < |v| then v[i] else fill)
  }

  /** `proj<n>(v)`: the first n components; the source asserts that v is strictly longer. */
  function Proj(v: Vec, n: nat): (r: Vec)
    requires n < |v|
    ensures |r| == n && forall i :: 0 <= i < n ==> r[i] == v[i]
  {
    seq(n, i requires 0 <= i < n => v[i])
  }

  /** Projecting an embedded vector back to its own length gives it back, whatever the fill. */
  lemma ProjEmbed(v: Vec, n: nat, fill: real)
    requires |v| < n
    ensures Proj(Embed(v, n, fill), |v|) == v
  {
  }

  /** `vec4::w_normalized`: divide every component by w, so that w becomes 1. */
  function WNormalized(v: Vec): (r: Vec)
    requires |v| == 4 && v[3] != 0.0
    ensures |r| == 4 && r[3] == 1.0
  {
    Div(v, v[3])
  }

  /** Scaling the w-normalized vector back by w gives the vector itself: the two name the same projective point. */
  lemma WNormalizedScales(v: Vec)
    requires |v| == 4 && v[3] != 0.0
    ensures forall i :: 0 <= i < 4 ==> WNormalized(v)[i] * v[3] == v[i]
  {
  }

  /** `to_homogeneous(v, scale)`: every component times scale, then scale itself. */
  function ToHomogeneous(v: Vec, scale: real): (r: Vec)
    requires |v| > 0
    ensures |r| == |v| + 1 && r[|v|] == scale
  {
    Scale(scale, v) + [scale]
  }

  /** `to_regular(v)`: the leading components divided by the last. */
  function ToRegular(v: Vec): (r: Vec)
    requires |v| > 2 && v[|v| - 1] != 0.0
    ensures |r| == |v| - 1
  {
    Div(v[..|v| - 1], v[|v| - 1])
  }

  /** Going to homogeneous coordinates with a non-zero scale and back is the identity. */
  lemma RegularOfHomogeneous(v: Vec, scale: real)
    requires |v| > 1 && scale != 0.0
    ensures ToRegular(ToHomogeneous(v, scale)) == v
  {
    var h := ToHomogeneous(v, scale);
    var r := ToRegular(h);
    forall i | 0 <= i < |v| ensures r[i] == v[i] {
      assert r[i] == h[i] / scale && h[i] == v[i] * scale;
    }
  }

  /**
   * `norm()`: the square root of the dot product with itself. The square
   * root is a parameter, since only its value at this one point matters.
   */
  function Norm(v: Vec, sqrt: real -> real): real
  {
    sqrt(Dot(v, v))
  }

  /** `normalized()`: v divided by its norm, defined when the norm is not zero. */
  function Normalized(v: Vec, sqrt: real -> real): (r: Vec)
    requires Norm(v, sqrt) != 0.0
    ensures |r| == |v|
    ensures forall i :: 0 <= i < |v| ==> r[i] * Norm(v, sqrt) == v[i]
  {
    Div(v, Norm(v, sqrt))
  }

  lemma {:induction false} DotDivLeft(a: Vec, s: real, b: Vec)
    requires |a| == |b| && s != 0.0
    ensures Dot(Div(a, s), b) == Dot(a, b) / s
    decreases |a|
  {
    if |a| > 0 {
      DivTail(a, s);
      DotDivLeft(a[1..], s, b[1..]);
      QuotientSum(Dot(a[1..], b[1..]), a[0], b[0], s);
    }
  }

  lemma DivTail(a: Vec, s: real)
    requires |a| > 0 && s != 0.0
    ensures Div(a, s)[1..] == Div(a[1..], s) && Div(a, s)[0] == a[0] / s
  {
    assert forall i :: 0 <= i < |a| - 1 ==> Div(a, s)[1..][i] == Div(a[1..], s)[i];
  }

  lemma QuotientSum(x: real, y: real, u: real, s: real)
    requires s != 0.0
    ensures x / s + (y / s) * u == (x + y * u) / s
  {
  }

  /** `cross(p, v)` of src/mat_vec.cpp. */
  function Cross(p: Vec, v: Vec): (r: Vec)
    requires |p| == 3 && |v| == 3
    ensures |r| == 3
  {
    [p[1] * v[2] - p[2] * v[1], p[2] * v[0] - p[0] * v[2], p[0] * v[1] - p[1] * v[0]]
  }

  lemma Dot3(a: Vec, b: Vec)
    requires |a| == 3 && |b| == 3
    ensures Dot(a, b) == a[0] * b[0] + a[1] * b[1] + a[2] * b[2]
  {
    assert a[1..][1..] == a[2..] && b[1..][1..] == b[2..];
    assert a[2..][1..] == [] && b[2..][1..] == [];
    assert Dot(a[2..], b[2..]) == a[2] * b[2];
    assert Dot(a[1..], b[1..]) == a[1] * b[1] + a[2] * b[2];
  }

  /** The cross product is orthogonal to both of its arguments. */
  lemma CrossOrthogonal(p: Vec, v: Vec)
    requires |p| == 3 && |v| == 3
    ensures Dot(Cross(p, v), p) == 0.0 && Dot(Cross(p, v), v) == 0.0
  {
    var a, b, e, x, y, z := p[0], p[1], p[2], v[0], v[1], v[2];
    assert p == [a, b, e] && v == [x, y, z];
    CrossDot(a, b, e, x, y, z);
  }

  lemma CrossDot(a: real, b: real, e: real, x: real, y: real, z: real)
    ensures Dot(Cross([a, b, e], [x, y, z]), [a, b, e]) == 0.0
    ensures Dot(Cross([a, b, e], [x, y, z]), [x, y, z]) == 0.0
  {
    var c := Cross([a, b, e], [x, y, z]);
    assert c[0] == b * z - e * y && c[1] == e * x - a * z && c[2] == a * y - b * x;
    Dot3(c, [a, b, e]);
    Dot3(c, [x, y, z]);
    TripleVanishes(a, b, e, x, y, z);
  }

  lemma TripleVanishes(a: real, b: real, c: real, x: real, y: real, z: real)
    ensures (b * z - c * y) * a + (c * x - a * z) * b + (a * y - b * x) * c == 0.0
    ensures (b * z - c * y) * x + (c * x - a * z) * y + (a * y - b * x) * z == 0.0
  {
  }

  /** Swapping the arguments negates the cross product. */
  lemma CrossAntiCommutative(p: Vec, v: Vec)
    requires |p| == 3 && |v| == 3
    ensures Cross(p, v) == Scale(-1.0, Cross(v, p))
  {
  }

  /** A vector crossed with itself is the zero vector. */
  lemma CrossSelf(p: Vec)
    requires |p| == 3
    ensures Cross(p, p) == [0.0, 0.0, 0.0]
  {
  }

  lemma {:induction false} DotCommutative(a: Vec, b: Vec)
    requires |a| == |b|
    ensures Dot(a, b) == Dot(b, a)
    decreases |a|
  {
    if |a| > 0 { DotCommutative(a[1..], b[1..]); }
  }

  lemma {:induction false} DotScaleLeft(s: real, a: Vec, b: Vec)
    requires |a| == |b|
    ensures Dot(Scale(s, a), b) == s * Dot(a, b)
    decreases |a|
  {
    if |a| > 0 {
      assert forall i :: 0 <= i < |a| - 1 ==> Scale(s, a)[1..][i] == Scale(s, a[1..])[i];
      assert Scale(s, a)[1..] == Scale(s, a[1..]);
      DotScaleLeft(s, a[1..], b[1..]);
    }
  }

  lemma {:induction false} DotSubLeft(a: Vec, b: Vec, c: Vec)
    requires |a| == |b| == |c|
    ensures Dot(Sub(a, b), c) == Dot(a, c) - Dot(b, c)
    decreases |a|
  {
    if |a| > 0 {
      assert forall i :: 0 <= i < |a| - 1 ==> Sub(a, b)[1..][i] == Sub(a[1..], b[1..])[i];
      assert Sub(a, b)[1..] == Sub(a[1..], b[1..]);
      DotSubLeft(a[1..], b[1..], c[1..]);
    }
  }

  /** The dot product distributes over a sum on the left. */
  lemma {:induction false} DotAddLeft(a: Vec, b: Vec, c: Vec)
    requires |a| == |b| == |c|
    ensures Dot(Add(a, b), c) == Dot(a, c) + Dot(b, c)
    decreases |a|
  {
    if |a| > 0 {
      assert forall i :: 0 <= i < |a| - 1 ==> Add(a, b)[1..][i] == Add(a[1..], b[1..])[i];
      assert Add(a, b)[1..] == Add(a[1..], b[1..]);
      DotAddLeft(a[1..], b[1..], c[1..]);
    }
  }

  /** Subtracting what was added gives the vector back. */
  lemma SubAdd(a: Vec, b: Vec)
    requires |a| == |b|
    ensures Sub(Add(a, b), b) == a
  {
    assert forall i :: 0 <= i < |a| ==> Sub(Add(a, b), b)[i] == a[i];
  }

  // --------------------------------------------------------------- matrices

  /** A mat<r,c> with r, c >= 1 (the source never instantiates an empty one). */
  predicate IsMat(m: Mat, r: nat, c: nat) {
    r >= 1 && c >= 1 && |m| == r && forall i :: 0 <= i < r ==> |m[i]| == c
  }

  predicate IsSquare(m: Mat) {
    IsMat(m, |m|, |m|)
  }

  /** `mat::col(idx)`: a copy of column idx. */
  function Col(m: Mat, idx: nat): (r: Vec)
    requires forall i :: 0 <= i < |m| ==> idx < |m[i]|
    ensures |r| == |m|
  {
    seq(|m|, i requires 0 <= i < |m| => m[i][idx])
  }

  /** `mat::set_col(idx, v)`: the matrix with column idx replaced by v. */
  function SetCol(m: Mat, idx: nat, v: Vec): (r: Mat)
    requires |m| > 0 && IsMat(m, |m|, |m[0]|) && idx < |m[0]| && |v| == |m|
    ensures IsMat(r, |m|, |m[0]|)
    ensures Col(r, idx) == v
    ensures forall j :: 0 <= j < |m[0]| && j != idx ==> Col(r, j) == Col(m, j)
  {
    seq(|m|, i requires 0 <= i < |m| => m[i][idx := v[i]])
  }

  /** `mat::identity()`: ones where row equals column, zeros elsewhere. */
  function Identity(r: nat, c: nat): (id: Mat)
    requires r >= 1 && c >= 1
    ensures IsMat(id, r, c)
  {
    seq(r, i requires 0 <= i < r => seq(c, j requires 0 <= j < c => if i == j then 1.0 else 0.0))
  }

  /** `mat::transpose()`: row i of the result is column i of m. */
  function Transpose(m: Mat): (t: Mat)
    requires |m| > 0 && IsMat(m, |m|, |m[0]|)
    ensures IsMat(t, |m[0]|, |m|)
    ensures forall i, j :: 0 <= i < |m[0]| && 0 <= j < |m| ==> t[i][j] == m[j][i]
  {
    seq(|m[0]|, i requires 0 <= i < |m[0]| => Col(m, i))
  }

  lemma TransposeTwice(m: Mat)
    requires |m| > 0 && IsMat(m, |m|, |m[0]|)
    ensures Transpose(Transpose(m)) == m
  {
    var t := Transpose(Transpose(m));
    assert forall i :: 0 <= i < |m| ==> t[i] == m[i];
  }

  /** `mat::get_minor(row, col)`: m without that row and that column. */
  function Minor(m: Mat, row: nat, col: nat): (r: Mat)
    requires |m| > 0 && IsMat(m, |m|, |m[0]|) && |m| >= 2 && |m[0]| >= 2
    requires row < |m| && col < |m[0]|
    ensures IsMat(r, |m| - 1, |m[0]| - 1)
  {
    seq(|m| - 1, i requires 0 <= i < |m| - 1 =>
      seq(|m[0]| - 1, j requires 0 <= j < |m[0]| - 1 =>
        m[if i < row then i else i + 1][if j < col then j else j + 1]))
  }

  /** Removing a row and a column commutes with transposition. */
  lemma MinorTranspose(m: Mat, row: nat, col: nat)
    requires |m| > 0 && IsMat(m, |m|, |m[0]|) && |m| >= 2 && |m[0]| >= 2
    requires row < |m| && col < |m[0]|
    ensures Minor(Transpose(m), col, row) == Transpose(Minor(m, row, col))
  {
    var l, r := Minor(Transpose(m), col, row), Transpose(Minor(m, row, col));
    forall i | 0 <= i < |l| ensures l[i] == r[i] {
      assert |l[i]| == |r[i]| == |m| - 1;
      forall j | 0 <= j < |l[i]| ensures l[i][j] == r[i][j] {
        MinorAt(Transpose(m), col, row, i, j);
        MinorAt(m, row, col, j, i);
      }
    }
  }

  lemma MinorAt(m: Mat, row: nat, col: nat, i: nat, j: nat)
    requires |m| > 0 && IsMat(m, |m|, |m[0]|) && |m| >= 2 && |m[0]| >= 2
    requires row < |m| && col < |m[0]| && i < |m| - 1 && j < |m[0]| - 1
    ensures Minor(m, row, col)[i][j] == m[if i < row then i else i + 1][if j < col then j else j + 1]
  {
  }

  /** `dt<n>::det`: Laplace expansion along row 0, accumulated left to right; 1x1 is the base case. */
  function Det(m: Mat): real
    requires IsSquare(m)
    decreases |m|, 2
  {
    if |m| == 1 then m[0][0] else DotPrefix(m[0], CofactorRow(m), |m|)
  }

  /** The cofactors along row 0, the terms of the expansion of det(). */
  function CofactorRow(m: Mat): (r: Vec)
    requires IsSquare(m) && |m| >= 2
    ensures |r| == |m|
    decreases |m|, 1
  {
    seq(|m|, j requires 0 <= j < |m| => Cofactor(m, 0, j))
  }

  /** `mat::cofactor(row, col)`: the signed determinant of the minor. */
  function Cofactor(m: Mat, row: nat, col: nat): real
    requires IsSquare(m) && |m| >= 2 && row < |m| && col < |m|
    decreases |m|, 0
  {
    Det(Minor(m, row, col)) * (if (row + col) % 2 == 1 then -1.0 else 1.0)
  }

  /** `mat::adjugate()`: as written it stores the cofactors themselves, not their transpose. */
  function Adjugate(m: Mat): (a: Mat)
    requires IsSquare(m) && |m| >= 2
    ensures IsMat(a, |m|, |m|)
    ensures forall i, j :: 0 <= i < |m| && 0 <= j < |m| ==> a[i][j] == Cofactor(m, i, j)
  {
    seq(|m|, i requires 0 <= i < |m| => seq(|m|, j requires 0 <= j < |m| => Cofactor(m, i, j)))
  }

  /** Matrix divided by a scalar, row by row. */
  function MatDiv(m: Mat, s: real): (r: Mat)
    requires s != 0.0
    ensures |r| == |m| && forall i :: 0 <= i < |m| ==> r[i] == Div(m[i], s)
  {
    seq(|m|, i requires 0 <= i < |m| => Div(m[i], s))
  }

  function MatScale(m: Mat, s: real): (r: Mat)
    ensures |r| == |m| && forall i :: 0 <= i < |m| ==> r[i] == Scale(s, m[i])
  {
    seq(|m|, i requires 0 <= i < |m| => Scale(s, m[i]))
  }

  function MatAdd(a: Mat, b: Mat): (r: Mat)
    requires |a| > 0 && IsMat(a, |a|, |a[0]|) && IsMat(b, |a|, |a[0]|)
    ensures IsMat(r, |a|, |a[0]|)
  {
    seq(|a|, i requires 0 <= i < |a| => Add(a[i], b[i]))
  }

  function MatSub(a: Mat, b: Mat): (r: Mat)
    requires |a| > 0 && IsMat(a, |a|, |a[0]|) && IsMat(b, |a|, |a[0]|)
    ensures IsMat(r, |a|, |a[0]|)
  {
    seq(|a|, i requires 0 <= i < |a| => Sub(a[i], b[i]))
  }

  /** The dot product of the adjugate's first row with m's first row: the source's determinant shortcut. */
  function InverseDenominator(m: Mat): real
    requires IsSquare(m) && |m| >= 2
  {
    Dot(Adjugate(m)[0], m[0])
  }

  /** `mat::invert_transpose()`: the cofactor matrix divided by the shortcut determinant. */
  function InvertTranspose(m: Mat): (r: Mat)
    requires IsSquare(m) && |m| >= 2 && InverseDenominator(m) != 0.0
    ensures IsMat(r, |m|, |m|)
  {
    MatDiv(Adjugate(m), InverseDenominator(m))
  }

  /** `mat::invert()`: the transpose of invert_transpose. */
  function Invert(m: Mat): (r: Mat)
    requires IsSquare(m) && |m| >= 2 && InverseDenominator(m) != 0.0
    ensures IsMat(r, |m|, |m|)
  {
    Transpose(InvertTranspose(m))
  }

  /** Matrix times vector: component i is row i dotted with v. */
  function MatVecMul(m: Mat, v: Vec): (r: Vec)
    requires IsMat(m, |m|, |v|)
    ensures |r| == |m|
  {
    seq(|m|, i requires 0 <= i < |m| => Dot(m[i], v))
  }

  /** Matrix times matrix: entry (i, j) is row i of a dotted with column j of b. */
  function MatMul(a: Mat, b: Mat): (r: Mat)
    requires |b| > 0 && IsMat(a, |a|, |b|) && IsMat(b, |b|, |b[0]|)
    ensures IsMat(r, |a|, |b[0]|)
  {
    seq(|a|, i requires 0 <= i < |a| =>
      seq(|b[0]|, j requires 0 <= j < |b[0]| => Dot(a[i], Col(b, j))))
  }

  // ------------------------------------------------------- algebraic laws

  /** A sum of matrices applied to v is the sum of their images of v. */
  lemma MatVecMulAdd(a: Mat, b: Mat, v: Vec)
    requires |a| > 0 && IsMat(a, |a|, |v|) && IsMat(b, |a|, |v|)
    ensures MatVecMul(MatAdd(a, b), v) == Add(MatVecMul(a, v), MatVecMul(b, v))
  {
    forall i | 0 <= i < |a|
      ensures MatVecMul(MatAdd(a, b), v)[i] == Add(MatVecMul(a, v), MatVecMul(b, v))[i]
    {
      DotAddLeft(a[i], b[i], v);
    }
  }

  /** A difference of matrices applied to v is the difference of their images of v. */
  lemma MatVecMulSub(a: Mat, b: Mat, v: Vec)
    requires |a| > 0 && IsMat(a, |a|, |v|) && IsMat(b, |a|, |v|)
    ensures MatVecMul(MatSub(a, b), v) == Sub(MatVecMul(a, v), MatVecMul(b, v))
  {
    forall i | 0 <= i < |a|
      ensures MatVecMul(MatSub(a, b), v)[i] == Sub(MatVecMul(a, v), MatVecMul(b, v))[i]
    {
      DotSubLeft(a[i], b[i], v);
    }
  }

  /** Subtracting the matrix that was added gives the matrix back. */
  lemma MatSubAdd(a: Mat, b: Mat)
    requires |a| > 0 && IsMat(a, |a|, |a[0]|) && IsMat(b, |a|, |a[0]|)
    ensures MatSub(MatAdd(a, b), b) == a
  {
    forall i | 0 <= i < |a| ensures MatSub(MatAdd(a, b), b)[i] == a[i] {
      SubAdd(a[i], b[i]);
    }
  }

  /** A scaled matrix applied to v is the scaled image of v. */
  lemma MatVecMulScale(m: Mat, s: real, v: Vec)
    requires IsMat(m, |m|, |v|)
    ensures MatVecMul(MatScale(m, s), v) == Scale(s, MatVecMul(m, v))
  {
    forall i | 0 <= i < |m| ensures MatVecMul(MatScale(m, s), v)[i] == Scale(s, MatVecMul(m, v))[i] {
      DotScaleLeft(s, m[i], v);
    }
  }

  /** Dividing a matrix scaled by a non-zero s by that s gives the matrix back. */
  lemma MatDivScale(m: Mat, s: real)
    requires s != 0.0
    ensures MatDiv(MatScale(m, s), s) == m
  {
    forall i | 0 <= i < |m| ensures MatDiv(MatScale(m, s), s)[i] == m[i] {
      var r := MatDiv(MatScale(m, s), s)[i];
      assert |r| == |m[i]|;
      forall j | 0 <= j < |m[i]| ensures r[j] == m[i][j] {
        assert r[j] == (m[i][j] * s) / s;
      }
    }
  }

  /** Row i of the identity picks out component i. */
  lemma {:induction false} DotIdentityRow(n: nat, i: nat, v: Vec)
    requires 1 <= n && i < n && |v| == n
    ensures Dot(Identity(n, n)[i], v) == v[i]
  {
    var row := Identity(n, n)[i];
    DotOneHot(row, v, i);
  }

  lemma {:induction false} DotOneHot(row: Vec, v: Vec, i: nat)
    requires |row| == |v| && i < |v|
    requires forall j :: 0 <= j < |row| ==> row[j] == if j == i then 1.0 else 0.0
    ensures Dot(row, v) == v[i]
    decreases |v|
  {
    if i == 0 {
      DotZero(row[1..], v[1..]);
    } else {
      DotOneHot(row[1..], v[1..], i - 1);
    }
  }

  lemma {:induction false} DotZero(row: Vec, v: Vec)
    requires |row| == |v|
    requires forall j :: 0 <= j < |row| ==> row[j] == 0.0
    ensures Dot(row, v) == 0.0
    decreases |v|
  {
    if |v| > 0 { DotZero(row[1..], v[1..]); }
  }

  /** The identity matrix leaves every vector unchanged. */
  lemma IdentityMatVec(v: Vec)
    requires |v| >= 1
    ensures MatVecMul(Identity(|v|, |v|), v) == v
  {
    forall i | 0 <= i < |v| ensures MatVecMul(Identity(|v|, |v|), v)[i] == v[i] {
      DotIdentityRow(|v|, i, v);
    }
  }

  /** Multiplying by the identity on the left leaves every matrix unchanged. */
  lemma IdentityMatMul(m: Mat)
    requires |m| > 0 && IsMat(m, |m|, |m[0]|)
    ensures MatMul(Identity(|m|, |m|), m) == m
  {
    var p := MatMul(Identity(|m|, |m|), m);
    forall i | 0 <= i < |m| ensures p[i] == m[i] {
      forall j | 0 <= j < |m[0]| ensures p[i][j] == m[i][j] {
        DotIdentityRow(|m|, i, Col(m, j));
      }
    }
  }

  /** Removing the same row and column from an identity gives the smaller identity. */
  lemma MinorIdentity(n: nat, k: nat)
    requires n >= 2 && k < n
    ensures Minor(Identity(n, n), k, k) == Identity(n - 1, n - 1)
  {
    var l, r := Minor(Identity(n, n), k, k), Identity(n - 1, n - 1);
    forall i | 0 <= i < n - 1 ensures l[i] == r[i] {
      assert |l[i]| == |r[i]| == n - 1;
      forall j | 0 <= j < n - 1 ensures l[i][j] == r[i][j] {
      }
    }
  }

  /** In the expansion of an identity's determinant only the first term survives. */
  lemma {:induction false} DetRowIdentity(n: nat, k: nat)
    requires n >= 2 && 1 <= k <= n
    ensures DotPrefix(Identity(n, n)[0], CofactorRow(Identity(n, n)), k) == Det(Identity(n - 1, n - 1))
  {
    var id := Identity(n, n);
    if k == 1 {
      MinorIdentity(n, 0);
      assert CofactorRow(id)[0] == Det(Minor(id, 0, 0));
    } else {
      DetRowIdentity(n, k - 1);
      assert id[0][k - 1] == 0.0;
    }
  }

  /** The determinant of every identity matrix is 1. */
  lemma {:induction false} DetIdentity(n: nat)
    requires n >= 1
    ensures Det(Identity(n, n)) == 1.0
  {
    var id := Identity(n, n);
    if n == 1 {
      assert Det(id) == id[0][0] == 1.0;
    } else {
      DetRowIdentity(n, n);
      assert Det(id) == DotPrefix(id[0], CofactorRow(id), n);
      DetIdentity(n - 1);
    }
  }

  /** The first k terms of a dot product, accumulated left to right. */
  function DotPrefix(a: Vec, b: Vec, k: nat): real
    requires |a| == |b| && k <= |a|
  {
    if k == 0 then 0.0 else DotPrefix(a, b, k - 1) + a[k - 1] * b[k - 1]
  }

  lemma {:induction false} DotPrefixTail(a: Vec, b: Vec, k: nat)
    requires |a| == |b| && 1 <= k <= |a|
    ensures DotPrefix(a, b, k) == a[0] * b[0] + DotPrefix(a[1..], b[1..], k - 1)
  {
    if k > 1 { DotPrefixTail(a, b, k - 1); }
  }

  /** The direction in which the sum is accumulated does not matter. */
  lemma {:induction false} DotIsPrefix(a: Vec, b: Vec)
    requires |a| == |b|
    ensures Dot(a, b) == DotPrefix(a, b, |a|)
    decreases |a|
  {
    if |a| > 0 {
      DotIsPrefix(a[1..], b[1..]);
      DotPrefixTail(a, b, |a|);
    }
  }

  /** A prefix sum of products does not depend on which factor comes first. */
  lemma {:induction false} DotPrefixSwap(a: Vec, b: Vec, k: nat)
    requires |a| == |b| && k <= |a|
    ensures DotPrefix(a, b, k) == DotPrefix(b, a, k)
  {
    if k > 0 {
      DotPrefixSwap(a, b, k - 1);
      assert a[k - 1] * b[k - 1] == b[k - 1] * a[k - 1];
    }
  }

  /** The shortcut of invert_transpose: the adjugate's first row dotted with m's first row is det(m). */
  lemma AdjugateRowIsDet(m: Mat)
    requires IsSquare(m) && |m| >= 2
    ensures InverseDenominator(m) == Det(m)
  {
    assert Adjugate(m)[0] == CofactorRow(m);
    DotIsPrefix(CofactorRow(m), m[0]);
    DotPrefixSwap(CofactorRow(m), m[0], |m|);
  }

  lemma Det1(m: Mat)
    requires IsSquare(m) && |m| == 1
    ensures Det(m) == m[0][0]
  {
  }

  /** The 2x2 expansion in closed form. */
  lemma Det2(m: Mat)
    requires IsSquare(m) && |m| == 2
    ensures Det(m) == m[0][0] * m[1][1] - m[0][1] * m[1][0]
  {
    Denominator2(m);
    AdjugateRowIsDet(m);
  }

  /** The cofactors of a 2x2 matrix. */
  lemma Cofactors2(m: Mat)
    requires IsSquare(m) && |m| == 2
    ensures Cofactor(m, 0, 0) == m[1][1] && Cofactor(m, 0, 1) == -m[1][0]
    ensures Cofactor(m, 1, 0) == -m[0][1] && Cofactor(m, 1, 1) == m[0][0]
  {
    assert Minor(m, 0, 0)[0][0] == m[1][1];
    assert Minor(m, 0, 1)[0][0] == m[1][0];
    assert Minor(m, 1, 0)[0][0] == m[0][1];
    assert Minor(m, 1, 1)[0][0] == m[0][0];
  }

  lemma Dot2(a: Vec, b: Vec)
    requires |a| == 2 && |b| == 2
    ensures Dot(a, b) == a[0] * b[0] + a[1] * b[1]
  {
    assert a[1..][1..] == [] && b[1..][1..] == [];
    assert Dot(a[1..], b[1..]) == a[1] * b[1];
  }

  /** invert() divides the transposed cofactor matrix by the shortcut determinant. */
  lemma InvertEntry(m: Mat, i: nat, j: nat)
    requires IsSquare(m) && |m| >= 2 && InverseDenominator(m) != 0.0
    requires i < |m| && j < |m|
    ensures Invert(m)[i][j] == Cofactor(m, j, i) / InverseDenominator(m)
  {
    var it := InvertTranspose(m);
    assert it[j] == Div(Adjugate(m)[j], InverseDenominator(m));
  }

  /** For a non-singular 2x2 matrix, invert() is a left inverse. */
  lemma Invert2(m: Mat)
    requires IsSquare(m) && |m| == 2 && Det(m) != 0.0
    ensures InverseDenominator(m) == Det(m)
    ensures MatMul(Invert(m), m) == Identity(2, 2)
  {
    AdjugateRowIsDet(m);
    LeftInverse2(m);
  }

  lemma LeftInverse2(m: Mat)
    requires IsSquare(m) && |m| == 2 && InverseDenominator(m) != 0.0
    ensures MatMul(Invert(m), m) == Identity(2, 2)
  {
    Invert2Closed(m);
    ClosedInverseProduct2(Invert(m), m, m[0][0] * m[1][1] - m[0][1] * m[1][0]);
  }

  /** A 2x2 matrix holding the closed-form inverse of m, times m, is the identity. */
  lemma ClosedInverseProduct2(p: Mat, m: Mat, d: real)
    requires IsMat(p, 2, 2) && IsMat(m, 2, 2)
    requires d == m[0][0] * m[1][1] - m[0][1] * m[1][0] && d != 0.0
    requires p[0][0] == m[1][1] / d && p[0][1] == -m[0][1] / d
    requires p[1][0] == -m[1][0] / d && p[1][1] == m[0][0] / d
    ensures MatMul(p, m) == Identity(2, 2)
  {
    InverseRow0(m[0][0], m[0][1], m[1][0], m[1][1], d, p[0][0], p[0][1]);
    InverseRow1(m[0][0], m[0][1], m[1][0], m[1][1], d, p[1][0], p[1][1]);
    MatMulEntry2(p, m, 0, 0);
    MatMulEntry2(p, m, 0, 1);
    MatMulEntry2(p, m, 1, 0);
    MatMulEntry2(p, m, 1, 1);
    Identity2();
    Mat2Equal(MatMul(p, m), Identity(2, 2));
  }

  lemma Identity2()
    ensures Identity(2, 2) == [[1.0, 0.0], [0.0, 1.0]]
  {
    var id := Identity(2, 2);
    assert id[0][0] == 1.0 && id[0][1] == 0.0 && id[1][0] == 0.0 && id[1][1] == 1.0;
    assert id[0] == [1.0, 0.0] && id[1] == [0.0, 1.0];
  }

  lemma Denominator2(m: Mat)
    requires IsSquare(m) && |m| == 2
    ensures InverseDenominator(m) == m[0][0] * m[1][1] - m[0][1] * m[1][0]
  {
    Adjugate2(m);
    Dot2(Adjugate(m)[0], m[0]);
  }

  /** The adjugate of a 2x2 matrix, as the source builds it (cofactors, not transposed). */
  lemma Adjugate2(m: Mat)
    requires IsSquare(m) && |m| == 2
    ensures Adjugate(m) == [[m[1][1], -m[1][0]], [-m[0][1], m[0][0]]]
  {
    Cofactors2(m);
    var adj := Adjugate(m);
    assert adj[0][0] == m[1][1] && adj[0][1] == -m[1][0];
    assert adj[1][0] == -m[0][1] && adj[1][1] == m[0][0];
    assert adj[0] == [m[1][1], -m[1][0]];
    assert adj[1] == [-m[0][1], m[0][0]];
  }

  /** The 2x2 inverse in closed form. */
  lemma Invert2Closed(m: Mat)
    requires IsSquare(m) && |m| == 2 && InverseDenominator(m) != 0.0
    ensures m[0][0] * m[1][1] - m[0][1] * m[1][0] != 0.0
    ensures var d := m[0][0] * m[1][1] - m[0][1] * m[1][0];
            Invert(m)[0][0] == m[1][1] / d && Invert(m)[0][1] == -m[0][1] / d &&
            Invert(m)[1][0] == -m[1][0] / d && Invert(m)[1][1] == m[0][0] / d
  {
    Denominator2(m);
    Adjugate2(m);
    TransposeDiv2(m[1][1], -m[1][0], -m[0][1], m[0][0], InverseDenominator(m));
  }

  /** Transposing a 2x2 matrix divided by a scalar, entry by entry. */
  lemma TransposeDiv2(p: real, q: real, r: real, t: real, d: real)
    requires d != 0.0
    ensures Transpose(MatDiv([[p, q], [r, t]], d)) == [[p / d, r / d], [q / d, t / d]]
  {
    var md := MatDiv([[p, q], [r, t]], d);
    assert md[0] == [p / d, q / d] && md[1] == [r / d, t / d];
    var tr := Transpose(md);
    assert tr[0] == [p / d, r / d] && tr[1] == [q / d, t / d];
  }

  /** Two 2x2 matrices with the same four entries are equal. */
  lemma Mat2Equal(x: Mat, y: Mat)
    requires IsMat(x, 2, 2) && IsMat(y, 2, 2)
    requires x[0][0] == y[0][0] && x[0][1] == y[0][1] && x[1][0] == y[1][0] && x[1][1] == y[1][1]
    ensures x == y
  {
    assert x[0] == y[0] && x[1] == y[1];
  }

  /** An entry of a product of 2x2 matrices. */
  lemma MatMulEntry2(a: Mat, b: Mat, i: nat, j: nat)
    requires IsMat(a, 2, 2) && IsMat(b, 2, 2) && i < 2 && j < 2
    ensures MatMul(a, b)[i][j] == a[i][0] * b[0][j] + a[i][1] * b[1][j]
  {
    var col := Col(b, j);
    assert MatMul(a, b)[i][j] == Dot(a[i], col);
    Dot2(a[i], col);
  }

  /** Row 0 of the closed-form 2x2 inverse against each column of [[a, b], [c, e]]. */
  lemma InverseRow0(a: real, b: real, c: real, e: real, d: real, x: real, y: real)
    requires d == a * e - b * c && d != 0.0
    requires x == e / d && y == -b / d
    ensures x * a + y * c == 1.0 && x * b + y * e == 0.0
  {
    assert x * a + y * c == (a * e - b * c) / d;
    assert x * b + y * e == 0.0 / d;
  }

  /** Row 1 of the closed-form 2x2 inverse against each column of [[a, b], [c, e]]. */
  lemma InverseRow1(a: real, b: real, c: real, e: real, d: real, x: real, y: real)
    requires d == a * e - b * c && d != 0.0
    requires x == -c / d && y == a / d
    ensures x * a + y * c == 0.0 && x * b + y * e == 1.0
  {
    assert x * a + y * c == 0.0 / d;
    assert x * b + y * e == (a * e - b * c) / d;
  }
}
