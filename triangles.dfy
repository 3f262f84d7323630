// The triangle rasterizers of renderer.h: a walk over the bounding box of the
// screen triangle, column by column, with the barycentric inside test, the
// on-canvas test and the strict "greater depth wins" z-buffer test; the colour
// of a surviving pixel comes from a fragment stage.

module Triangles {
  import opened Numeric
  import opened Pixels
  import opened MatVec
  import opened Raster
  import opened RenderHelpers

  // ------------------------------------------------------------ the triangle

  /**
   * Three screen-space corners, each with at least x, y and z. The corner
   * coordinates are converted to `int` for the bounding box, which is
   * defined only for values inside the range of `int`; they are kept
   * strictly below INT_MAX so that the walk's `P.x++` cannot overflow.
   */
  predicate ScreenTriangle(tri: seq<Vec>)
  {
    |tri| == 3 && (forall k :: 0 <= k < 3 ==> |tri[k]| >= 3) &&
    forall k :: 0 <= k < 3 ==>
      INT_MIN as real < tri[k][0] < INT_MAX as real && INT_MIN as real < tri[k][1] < INT_MAX as real
  }

  /**
   * The inside test of the walk: every barycentric weight is non-negative.
   * For a degenerate triangle (det_T == 0) the source divides by zero; in
   * IEEE arithmetic each weight is then infinite or NaN, and either some
   * weight is -inf (the test fails) or the depth is NaN (the depth test
   * fails), so no pixel is ever written: the model treats such a triangle as
   * covering no pixel.
   */
  predicate Covered(tri: seq<Vec>, px: int, py: int)
    requires ScreenTriangle(tri)
  {
    BaryDet(tri) != 0.0 && Barycentric(tri, px, py).Inside()
  }

  /** zdepth: the corner depths interpolated with the barycentric weights. */
  function Depth(tri: seq<Vec>, b: Bary): real
    requires ScreenTriangle(tri)
  {
    b.Mix(tri[0][2], tri[1][2], tri[2][2])
  }

  /** The "outside the screen" test of the walk, against `(int)canvas.width` and `(int)canvas.height`. */
  predicate OnScreen(px: int, py: int, width: nat, height: nat)
    requires width < UINT_RANGE && height < UINT_RANGE
    ensures OnScreen(px, py, width, height) ==> 0 <= px < width && 0 <= py < height
  {
    0 <= px && 0 <= py && px < AsInt(width) && py < AsInt(height)
  }

  // -------------------------------------------------------- the bounding box

  /** bbox[0] (inner corner) and bbox[1] (outer corner), inclusive. */
  datatype Box = Box(xlo: int, ylo: int, xhi: int, yhi: int)

  /** One update of an inner coordinate: a smaller corner coordinate is truncated to `int`. */
  function LowerStep(lo: int, c: real): (r: int)
    requires INT_MIN as real < c < INT_MAX as real
    ensures r <= lo && (r as real) < c + 1.0
    ensures r == lo || INT_MIN <= r < INT_MAX
  {
    if c < lo as real then Trunc(c) else lo
  }

  /** One update of an outer coordinate: a larger corner coordinate is truncated to `int`. */
  function UpperStep(hi: int, c: real): (r: int)
    requires INT_MIN as real < c < INT_MAX as real
    ensures r >= hi && (r as real) > c - 1.0
    ensures r == hi || INT_MIN <= r < INT_MAX
  {
    if c > hi as real then Trunc(c) else hi
  }

  /**
   * The bounding box after the first n corners: the inner corner starts at
   * `((int)width, (int)height)` and the outer one at (0, 0).
   */
  function BoxAfter(tri: seq<Vec>, width: nat, height: nat, n: nat): (b: Box)
    requires ScreenTriangle(tri) && width < UINT_RANGE && height < UINT_RANGE && n <= 3
    ensures b.xlo <= AsInt(width) && b.ylo <= AsInt(height) && 0 <= b.xhi && 0 <= b.yhi
    ensures INT_MIN <= b.xlo && INT_MIN <= b.ylo && b.xhi < INT_MAX && b.yhi < INT_MAX
    ensures forall k :: 0 <= k < n ==>
              (b.xlo as real) < tri[k][0] + 1.0 && tri[k][0] - 1.0 < b.xhi as real &&
              (b.ylo as real) < tri[k][1] + 1.0 && tri[k][1] - 1.0 < b.yhi as real
  {
    if n == 0 then Box(AsInt(width), AsInt(height), 0, 0)
    else
      var b := BoxAfter(tri, width, height, n - 1);
      var c := tri[n - 1];
      Box(LowerStep(b.xlo, c[0]), LowerStep(b.ylo, c[1]), UpperStep(b.xhi, c[0]), UpperStep(b.yhi, c[1]))
  }

  function Bbox(tri: seq<Vec>, width: nat, height: nat): (b: Box)
    requires ScreenTriangle(tri) && width < UINT_RANGE && height < UINT_RANGE
  {
    BoxAfter(tri, width, height, 3)
  }

  /** The loop over the three corners that builds the bounding box. */
  method BoundingBox(tri: seq<Vec>, width: nat, height: nat) returns (box: Box)
    requires ScreenTriangle(tri) && width < UINT_RANGE && height < UINT_RANGE
    ensures box == Bbox(tri, width, height)
  {
    box := Box(AsInt(width), AsInt(height), 0, 0);
    for i := 0 to 3
      invariant box == BoxAfter(tri, width, height, i)
    {
      var xlo := if tri[i][0] < box.xlo as real then Trunc(tri[i][0]) else box.xlo;
      var ylo := if tri[i][1] < box.ylo as real then Trunc(tri[i][1]) else box.ylo;
      var xhi := if tri[i][0] > box.xhi as real then Trunc(tri[i][0]) else box.xhi;
      var yhi := if tri[i][1] > box.yhi as real then Trunc(tri[i][1]) else box.yhi;
      box := Box(xlo, ylo, xhi, yhi);
    }
  }

  /** Non-negative weights summing to one give a value between the smallest and the largest of the three. */
  lemma MixBetween(r: Bary, a: real, b: real, c: real)
    requires r.Inside() && r.x + r.y + r.z == 1.0
    ensures a <= r.Mix(a, b, c) || b <= r.Mix(a, b, c) || c <= r.Mix(a, b, c)
    ensures r.Mix(a, b, c) <= a || r.Mix(a, b, c) <= b || r.Mix(a, b, c) <= c
  {
    MixAtLeast(r, a, b, c, Min3(a, b, c));
    MixAtMost(r, a, b, c, Max3(a, b, c));
  }

  lemma MixAtLeast(r: Bary, a: real, b: real, c: real, lo: real)
    requires r.Inside() && r.x + r.y + r.z == 1.0
    requires lo <= a && lo <= b && lo <= c
    ensures lo <= r.Mix(a, b, c)
  {
    MulLeR(r.x, lo, a);
    MulLeR(r.y, lo, b);
    MulLeR(r.z, lo, c);
    SumTimes(r.x, r.y, r.z, lo);
    SumBelow(r.x * lo, r.y * lo, r.z * lo, r.x * a, r.y * b, r.z * c);
  }

  lemma MixAtMost(r: Bary, a: real, b: real, c: real, hi: real)
    requires r.Inside() && r.x + r.y + r.z == 1.0
    requires a <= hi && b <= hi && c <= hi
    ensures r.Mix(a, b, c) <= hi
  {
    MixAtLeast(r, -a, -b, -c, -hi);
    MixNegate(r, a, b, c);
  }

  lemma MixNegate(r: Bary, a: real, b: real, c: real)
    ensures r.Mix(-a, -b, -c) == -r.Mix(a, b, c)
  {
  }

  lemma SumBelow(u0: real, u1: real, u2: real, v0: real, v1: real, v2: real)
    requires u0 <= v0 && u1 <= v1 && u2 <= v2
    ensures u0 + u1 + u2 <= v0 + v1 + v2
  {
  }

  lemma SumTimes(x: real, y: real, z: real, v: real)
    requires x + y + z == 1.0
    ensures x * v + y * v + z * v == v
  {
    assert x * v + y * v + z * v == (x + y + z) * v;
  }

  lemma MulLeR(w: real, u: real, v: real)
    requires w >= 0.0 && u <= v
    ensures w * u <= w * v
  {
  }

  function Min3(a: real, b: real, c: real): (m: real)
    ensures m <= a && m <= b && m <= c && (m == a || m == b || m == c)
  {
    if a <= b && a <= c then a else if b <= c then b else c
  }

  function Max3(a: real, b: real, c: real): (m: real)
    ensures m >= a && m >= b && m >= c && (m == a || m == b || m == c)
  {
    if a >= b && a >= c then a else if b >= c then b else c
  }

  /** Every pixel the triangle covers lies in its bounding box, so the walk visits it. */
  lemma BoxCovers(tri: seq<Vec>, width: nat, height: nat, px: int, py: int)
    requires ScreenTriangle(tri) && width < UINT_RANGE && height < UINT_RANGE
    requires Covered(tri, px, py)
    ensures var b := Bbox(tri, width, height);
            b.xlo <= px <= b.xhi && b.ylo <= py <= b.yhi
  {
    var r := Barycentric(tri, px, py);
    BarycentricReconstructs(tri, px, py);
    MixBetween(r, tri[0][0], tri[1][0], tri[2][0]);
    MixBetween(r, tri[0][1], tri[1][1], tri[2][1]);
  }

  // ------------------------------------------------------------- pixel steps

  /** The canvas buffer, the z-buffer and the `color` variable handed to the fragment stage. */
  datatype Frame<T> = Frame(canvas: seq<T>, depth: seq<real>, color: T)

  /**
   * The fragment stage: given the weights and the current `color`, whether
   * to discard the pixel and the colour it leaves in `color` (which the
   * walk carries on to the next pixel, discarded or not).
   */
  type Fragment<!T> = (Bary, T) -> (bool, T)

  predicate Sized<T>(st: Frame<T>, width: nat, height: nat)
  {
    |st.canvas| == width * height && |st.depth| == width * height
  }

  /** The work at one pixel P of the walk. */
  function Step<T>(st: Frame<T>, tri: seq<Vec>, fragment: Fragment<T>, width: nat, height: nat, px: int, py: int): (r: Frame<T>)
    requires ScreenTriangle(tri) && width < UINT_RANGE && height < UINT_RANGE && Sized(st, width, height)
    ensures Sized(r, width, height)
  {
    if !Covered(tri, px, py) || !OnScreen(px, py, width, height) then st
    else
      var b := Barycentric(tri, px, py);
      var i := Index(px, py, width, height);
      var z := Depth(tri, b);
      if z > st.depth[i] then
        var f := fragment(b, st.color);
        if f.0 then Frame(st.canvas, st.depth, f.1)
        else Frame(st.canvas[i := f.1], st.depth[i := z], f.1)
      else st
  }

  /** Column px of the walk, rows ylo up to (not including) yend. */
  function Column<T>(st: Frame<T>, tri: seq<Vec>, fragment: Fragment<T>, width: nat, height: nat,
                     px: int, ylo: int, yend: int): (r: Frame<T>)
    requires ScreenTriangle(tri) && width < UINT_RANGE && height < UINT_RANGE && Sized(st, width, height)
    ensures Sized(r, width, height)
    decreases yend - ylo
  {
    if yend <= ylo then st
    else Step(Column(st, tri, fragment, width, height, px, ylo, yend - 1), tri, fragment, width, height, px, yend - 1)
  }

  /** Columns xlo up to (not including) xend of the walk, each over rows ylo up to yend. */
  function Columns<T>(st: Frame<T>, tri: seq<Vec>, fragment: Fragment<T>, width: nat, height: nat,
                      xlo: int, xend: int, ylo: int, yend: int): (r: Frame<T>)
    requires ScreenTriangle(tri) && width < UINT_RANGE && height < UINT_RANGE && Sized(st, width, height)
    ensures Sized(r, width, height)
    decreases xend - xlo
  {
    if xend <= xlo then st
    else
      var before := Columns(st, tri, fragment, width, height, xlo, xend - 1, ylo, yend);
      Column(before, tri, fragment, width, height, xend - 1, ylo, yend)
  }

  /** The whole walk over the bounding box, inclusive at both corners. */
  function Rasterize<T>(st: Frame<T>, tri: seq<Vec>, fragment: Fragment<T>, width: nat, height: nat): (r: Frame<T>)
    requires ScreenTriangle(tri) && width < UINT_RANGE && height < UINT_RANGE && Sized(st, width, height)
    ensures Sized(r, width, height)
  {
    var b := Bbox(tri, width, height);
    Columns(st, tri, fragment, width, height, b.xlo, b.xhi + 1, b.ylo, b.yhi + 1)
  }

  // ------------------------------------------------------ what a walk keeps

  /**
   * How the buffers may change from a to b: no depth decreases, a canvas
   * entry changes only together with its depth, and a changed depth belongs
   * to a pixel the triangle covers and holds the depth interpolated there.
   */
  ghost predicate Evolves<T>(a: Frame<T>, b: Frame<T>, tri: seq<Vec>, width: nat, height: nat)
    requires ScreenTriangle(tri)
  {
    Sized(a, width, height) && Sized(b, width, height) &&
    (forall i :: 0 <= i < width * height ==> a.depth[i] <= b.depth[i]) &&
    (forall i :: 0 <= i < width * height && b.canvas[i] != a.canvas[i] ==> b.depth[i] != a.depth[i]) &&
    forall px: nat, py: nat ::
      (px < width && py < height && b.depth[Index(px, py, width, height)] != a.depth[Index(px, py, width, height)]) ==>
        Covered(tri, px, py) && b.depth[Index(px, py, width, height)] == Depth(tri, Barycentric(tri, px, py))
  }

  lemma EvolvesRefl<T>(a: Frame<T>, tri: seq<Vec>, width: nat, height: nat)
    requires ScreenTriangle(tri) && Sized(a, width, height)
    ensures Evolves(a, a, tri, width, height)
  {
  }

  lemma EvolvesTrans<T>(a: Frame<T>, b: Frame<T>, c: Frame<T>, tri: seq<Vec>, width: nat, height: nat)
    requires ScreenTriangle(tri)
    requires Evolves(a, b, tri, width, height) && Evolves(b, c, tri, width, height)
    ensures Evolves(a, c, tri, width, height)
  {
    forall px: nat, py: nat | px < width && py < height &&
      c.depth[Index(px, py, width, height)] != a.depth[Index(px, py, width, height)]
      ensures Covered(tri, px, py) && c.depth[Index(px, py, width, height)] == Depth(tri, Barycentric(tri, px, py))
    {
      var i := Index(px, py, width, height);
      if c.depth[i] == b.depth[i] {
        assert b.depth[i] != a.depth[i];
      }
    }
  }

  /** One pixel step changes the buffers only as Evolves allows. */
  lemma StepEvolves<T>(st: Frame<T>, tri: seq<Vec>, fragment: Fragment<T>, width: nat, height: nat, px: int, py: int)
    requires ScreenTriangle(tri) && width < UINT_RANGE && height < UINT_RANGE && Sized(st, width, height)
    ensures Evolves(st, Step(st, tri, fragment, width, height, px, py), tri, width, height)
  {
    var r := Step(st, tri, fragment, width, height, px, py);
    if Covered(tri, px, py) && OnScreen(px, py, width, height) {
      var i := Index(px, py, width, height);
      forall qx: nat, qy: nat | qx < width && qy < height &&
        r.depth[Index(qx, qy, width, height)] != st.depth[Index(qx, qy, width, height)]
        ensures Covered(tri, qx, qy) && r.depth[Index(qx, qy, width, height)] == Depth(tri, Barycentric(tri, qx, qy))
      {
        if Index(qx, qy, width, height) == i {
          IndexInjective(qx, qy, px, py, width, height);
        }
      }
    }
  }

  lemma {:induction false} ColumnEvolves<T>(st: Frame<T>, tri: seq<Vec>, fragment: Fragment<T>, width: nat, height: nat,
                                            px: int, ylo: int, yend: int)
    requires ScreenTriangle(tri) && width < UINT_RANGE && height < UINT_RANGE && Sized(st, width, height)
    ensures Evolves(st, Column(st, tri, fragment, width, height, px, ylo, yend), tri, width, height)
    decreases yend - ylo
  {
    if yend <= ylo {
      EvolvesRefl(st, tri, width, height);
    } else {
      var mid := Column(st, tri, fragment, width, height, px, ylo, yend - 1);
      ColumnEvolves(st, tri, fragment, width, height, px, ylo, yend - 1);
      StepEvolves(mid, tri, fragment, width, height, px, yend - 1);
      EvolvesTrans(st, mid, Step(mid, tri, fragment, width, height, px, yend - 1), tri, width, height);
    }
  }

  lemma {:induction false} ColumnsEvolves<T>(st: Frame<T>, tri: seq<Vec>, fragment: Fragment<T>, width: nat, height: nat,
                                             xlo: int, xend: int, ylo: int, yend: int)
    requires ScreenTriangle(tri) && width < UINT_RANGE && height < UINT_RANGE && Sized(st, width, height)
    ensures Evolves(st, Columns(st, tri, fragment, width, height, xlo, xend, ylo, yend), tri, width, height)
    decreases xend - xlo
  {
    if xend <= xlo {
      EvolvesRefl(st, tri, width, height);
    } else {
      var mid := Columns(st, tri, fragment, width, height, xlo, xend - 1, ylo, yend);
      ColumnsEvolves(st, tri, fragment, width, height, xlo, xend - 1, ylo, yend);
      ColumnEvolves(mid, tri, fragment, width, height, xend - 1, ylo, yend);
      EvolvesTrans(st, mid, Column(mid, tri, fragment, width, height, xend - 1, ylo, yend), tri, width, height);
    }
  }

  /**
   * Across a whole draw: no z-buffer entry decreases; a canvas entry changes
   * only where its z-buffer entry strictly increased; a changed entry belongs
   * to a covered pixel and holds its interpolated depth.
   */
  lemma RasterizeEvolves<T>(st: Frame<T>, tri: seq<Vec>, fragment: Fragment<T>, width: nat, height: nat)
    requires ScreenTriangle(tri) && width < UINT_RANGE && height < UINT_RANGE && Sized(st, width, height)
    ensures var r := Rasterize(st, tri, fragment, width, height);
            Evolves(st, r, tri, width, height) &&
            forall i :: 0 <= i < width * height && r.canvas[i] != st.canvas[i] ==> r.depth[i] > st.depth[i]
  {
    var b := Bbox(tri, width, height);
    ColumnsEvolves(st, tri, fragment, width, height, b.xlo, b.xhi + 1, b.ylo, b.yhi + 1);
  }

  /** Pixels outside the bounding box keep their colour and their depth. */
  lemma OutsideBoxUntouched<T>(st: Frame<T>, tri: seq<Vec>, fragment: Fragment<T>, width: nat, height: nat,
                               px: nat, py: nat)
    requires ScreenTriangle(tri) && width < UINT_RANGE && height < UINT_RANGE && Sized(st, width, height)
    requires px < width && py < height
    requires var b := Bbox(tri, width, height);
             !(b.xlo <= px <= b.xhi && b.ylo <= py <= b.yhi)
    ensures var r := Rasterize(st, tri, fragment, width, height);
            var i := Index(px, py, width, height);
            r.canvas[i] == st.canvas[i] && r.depth[i] == st.depth[i]
  {
    RasterizeEvolves(st, tri, fragment, width, height);
    var r := Rasterize(st, tri, fragment, width, height);
    var i := Index(px, py, width, height);
    if r.depth[i] != st.depth[i] {
      BoxCovers(tri, width, height, px, py);
    }
  }

  /** The depth test at one pixel: d becomes the interpolated depth when the triangle covers the pixel and is nearer. */
  function ZTest(tri: seq<Vec>, width: nat, height: nat, px: int, py: int, d: real): (r: real)
    requires ScreenTriangle(tri) && width < UINT_RANGE && height < UINT_RANGE
    ensures r >= d
  {
    if Covered(tri, px, py) && OnScreen(px, py, width, height) && Depth(tri, Barycentric(tri, px, py)) > d
    then Depth(tri, Barycentric(tri, px, py)) else d
  }

  /** A fragment stage that keeps every pixel (as the flat and posterization shaders do). */
  ghost predicate NeverDiscards<T(!new)>(fragment: Fragment<T>)
  {
    forall b, c :: !fragment(b, c).0
  }

  lemma StepDepth<T(!new)>(st: Frame<T>, tri: seq<Vec>, fragment: Fragment<T>, width: nat, height: nat,
                     x: int, y: int, px: nat, py: nat)
    requires ScreenTriangle(tri) && width < UINT_RANGE && height < UINT_RANGE && Sized(st, width, height)
    requires NeverDiscards(fragment) && px < width && py < height
    ensures var i := Index(px, py, width, height);
            Step(st, tri, fragment, width, height, x, y).depth[i] ==
              if px == x && py == y then ZTest(tri, width, height, px, py, st.depth[i]) else st.depth[i]
  {
    var i := Index(px, py, width, height);
    if Covered(tri, x, y) && OnScreen(x, y, width, height) && Index(x, y, width, height) == i {
      IndexInjective(x, y, px, py, width, height);
    }
  }

  lemma {:induction false} ColumnDepth<T(!new)>(st: Frame<T>, tri: seq<Vec>, fragment: Fragment<T>, width: nat, height: nat,
                                          x: int, ylo: int, yend: int, px: nat, py: nat)
    requires ScreenTriangle(tri) && width < UINT_RANGE && height < UINT_RANGE && Sized(st, width, height)
    requires NeverDiscards(fragment) && px < width && py < height
    ensures var i := Index(px, py, width, height);
            Column(st, tri, fragment, width, height, x, ylo, yend).depth[i] ==
              if px == x && ylo <= py < yend then ZTest(tri, width, height, px, py, st.depth[i]) else st.depth[i]
    decreases yend - ylo
  {
    if yend > ylo {
      var mid := Column(st, tri, fragment, width, height, x, ylo, yend - 1);
      ColumnDepth(st, tri, fragment, width, height, x, ylo, yend - 1, px, py);
      StepDepth(mid, tri, fragment, width, height, x, yend - 1, px, py);
    }
  }

  lemma {:induction false} ColumnsDepth<T(!new)>(st: Frame<T>, tri: seq<Vec>, fragment: Fragment<T>, width: nat, height: nat,
                                           xlo: int, xend: int, ylo: int, yend: int, px: nat, py: nat)
    requires ScreenTriangle(tri) && width < UINT_RANGE && height < UINT_RANGE && Sized(st, width, height)
    requires NeverDiscards(fragment) && px < width && py < height
    ensures var i := Index(px, py, width, height);
            Columns(st, tri, fragment, width, height, xlo, xend, ylo, yend).depth[i] ==
              if xlo <= px < xend && ylo <= py < yend then ZTest(tri, width, height, px, py, st.depth[i]) else st.depth[i]
    decreases xend - xlo
  {
    if xend > xlo {
      var mid := Columns(st, tri, fragment, width, height, xlo, xend - 1, ylo, yend);
      ColumnsDepth(st, tri, fragment, width, height, xlo, xend - 1, ylo, yend, px, py);
      ColumnDepth(mid, tri, fragment, width, height, xend - 1, ylo, yend, px, py);
    }
  }

  /**
   * With a fragment stage that never discards, every pixel ends with the
   * z-buffer result: the interpolated depth where the triangle covers it and
   * is nearer than what was there, the old depth everywhere else.
   */
  lemma RasterizeDepth<T(!new)>(st: Frame<T>, tri: seq<Vec>, fragment: Fragment<T>, width: nat, height: nat, px: nat, py: nat)
    requires ScreenTriangle(tri) && width < UINT_RANGE && height < UINT_RANGE && Sized(st, width, height)
    requires NeverDiscards(fragment) && px < width && py < height
    ensures var i := Index(px, py, width, height);
            Rasterize(st, tri, fragment, width, height).depth[i] == ZTest(tri, width, height, px, py, st.depth[i])
  {
    var b := Bbox(tri, width, height);
    ColumnsDepth(st, tri, fragment, width, height, b.xlo, b.xhi + 1, b.ylo, b.yhi + 1, px, py);
    if Covered(tri, px, py) {
      BoxCovers(tri, width, height, px, py);
    }
  }

  // ------------------------------------------------------ what a walk paints

  /** Every colour the fragment stage does not discard satisfies ok, for the weights it was called with. */
  ghost predicate Keeps<T(!new)>(fragment: Fragment<T>, ok: (Bary, T) -> bool)
  {
    forall b, c :: !fragment(b, c).0 ==> ok(b, fragment(b, c).1)
  }

  /**
   * From a to b no depth decreases, a canvas entry changes only together
   * with its depth, and every pixel whose depth changed is covered by tri
   * and holds a colour that ok accepts for the weights of tri there.
   */
  ghost predicate Painted<T>(a: Frame<T>, b: Frame<T>, tri: seq<Vec>, ok: (Bary, T) -> bool, width: nat, height: nat)
    requires ScreenTriangle(tri)
  {
    Sized(a, width, height) && Sized(b, width, height) &&
    (forall i :: 0 <= i < width * height ==> a.depth[i] <= b.depth[i]) &&
    (forall i :: 0 <= i < width * height && b.canvas[i] != a.canvas[i] ==> b.depth[i] != a.depth[i]) &&
    forall px: nat, py: nat ::
      (px < width && py < height && b.depth[Index(px, py, width, height)] != a.depth[Index(px, py, width, height)]) ==>
        Covered(tri, px, py) && ok(Barycentric(tri, px, py), b.canvas[Index(px, py, width, height)])
  }

  lemma PaintedRefl<T>(a: Frame<T>, tri: seq<Vec>, ok: (Bary, T) -> bool, width: nat, height: nat)
    requires ScreenTriangle(tri) && Sized(a, width, height)
    ensures Painted(a, a, tri, ok, width, height)
  {
  }

  lemma PaintedTrans<T>(a: Frame<T>, b: Frame<T>, c: Frame<T>, tri: seq<Vec>, ok: (Bary, T) -> bool, width: nat, height: nat)
    requires ScreenTriangle(tri)
    requires Painted(a, b, tri, ok, width, height) && Painted(b, c, tri, ok, width, height)
    ensures Painted(a, c, tri, ok, width, height)
  {
    forall px: nat, py: nat | px < width && py < height &&
      c.depth[Index(px, py, width, height)] != a.depth[Index(px, py, width, height)]
      ensures Covered(tri, px, py) && ok(Barycentric(tri, px, py), c.canvas[Index(px, py, width, height)])
    {
      var i := Index(px, py, width, height);
      if c.depth[i] == b.depth[i] {
        assert b.depth[i] != a.depth[i];
        assert c.canvas[i] == b.canvas[i];
      }
    }
  }

  /** One pixel step paints only what the fragment stage keeps. */
  lemma StepPaints<T(!new)>(st: Frame<T>, tri: seq<Vec>, fragment: Fragment<T>, ok: (Bary, T) -> bool,
                            width: nat, height: nat, px: int, py: int)
    requires ScreenTriangle(tri) && width < UINT_RANGE && height < UINT_RANGE && Sized(st, width, height)
    requires Keeps(fragment, ok)
    ensures Painted(st, Step(st, tri, fragment, width, height, px, py), tri, ok, width, height)
  {
    var r := Step(st, tri, fragment, width, height, px, py);
    if Covered(tri, px, py) && OnScreen(px, py, width, height) {
      var i := Index(px, py, width, height);
      forall qx: nat, qy: nat | qx < width && qy < height &&
        r.depth[Index(qx, qy, width, height)] != st.depth[Index(qx, qy, width, height)]
        ensures Covered(tri, qx, qy) && ok(Barycentric(tri, qx, qy), r.canvas[Index(qx, qy, width, height)])
      {
        if Index(qx, qy, width, height) == i {
          IndexInjective(qx, qy, px, py, width, height);
        }
      }
    }
  }

  lemma {:induction false} ColumnPaints<T(!new)>(st: Frame<T>, tri: seq<Vec>, fragment: Fragment<T>, ok: (Bary, T) -> bool,
                                                 width: nat, height: nat, px: int, ylo: int, yend: int)
    requires ScreenTriangle(tri) && width < UINT_RANGE && height < UINT_RANGE && Sized(st, width, height)
    requires Keeps(fragment, ok)
    ensures Painted(st, Column(st, tri, fragment, width, height, px, ylo, yend), tri, ok, width, height)
    decreases yend - ylo
  {
    if yend <= ylo {
      PaintedRefl(st, tri, ok, width, height);
    } else {
      var mid := Column(st, tri, fragment, width, height, px, ylo, yend - 1);
      ColumnPaints(st, tri, fragment, ok, width, height, px, ylo, yend - 1);
      StepPaints(mid, tri, fragment, ok, width, height, px, yend - 1);
      PaintedTrans(st, mid, Step(mid, tri, fragment, width, height, px, yend - 1), tri, ok, width, height);
    }
  }

  lemma {:induction false} ColumnsPaints<T(!new)>(st: Frame<T>, tri: seq<Vec>, fragment: Fragment<T>, ok: (Bary, T) -> bool,
                                                  width: nat, height: nat, xlo: int, xend: int, ylo: int, yend: int)
    requires ScreenTriangle(tri) && width < UINT_RANGE && height < UINT_RANGE && Sized(st, width, height)
    requires Keeps(fragment, ok)
    ensures Painted(st, Columns(st, tri, fragment, width, height, xlo, xend, ylo, yend), tri, ok, width, height)
    decreases xend - xlo
  {
    if xend <= xlo {
      PaintedRefl(st, tri, ok, width, height);
    } else {
      var mid := Columns(st, tri, fragment, width, height, xlo, xend - 1, ylo, yend);
      ColumnsPaints(st, tri, fragment, ok, width, height, xlo, xend - 1, ylo, yend);
      ColumnPaints(mid, tri, fragment, ok, width, height, xend - 1, ylo, yend);
      PaintedTrans(st, mid, Column(mid, tri, fragment, width, height, xend - 1, ylo, yend), tri, ok, width, height);
    }
  }

  /**
   * Across a whole draw, a canvas entry changes only where its depth
   * changed, and every pixel whose depth changed holds a colour the
   * fragment stage produced there and did not discard.
   */
  lemma RasterizePaints<T(!new)>(st: Frame<T>, tri: seq<Vec>, fragment: Fragment<T>, ok: (Bary, T) -> bool,
                                 width: nat, height: nat)
    requires ScreenTriangle(tri) && width < UINT_RANGE && height < UINT_RANGE && Sized(st, width, height)
    requires Keeps(fragment, ok)
    ensures Painted(st, Rasterize(st, tri, fragment, width, height), tri, ok, width, height)
  {
    var b := Bbox(tri, width, height);
    ColumnsPaints(st, tri, fragment, ok, width, height, b.xlo, b.xhi + 1, b.ylo, b.yhi + 1);
  }

  // ----------------------------------------------------- draw_shaded_triangle

  /** The body of the inner loop at pixel P: returns the new `color`. */
  method ShadePixel<T>(tri: seq<Vec>, fragment: Fragment<T>, canvas: Image<T>, zbuffer: Image<real>,
                       px: int, py: int, color: T) returns (color': T)
    requires ScreenTriangle(tri) && canvas.Valid() && zbuffer.Valid()
    requires zbuffer.width == canvas.width && zbuffer.height == canvas.height
    requires canvas.data as object != zbuffer.data as object
    modifies canvas.data, zbuffer.data
    ensures Frame(canvas.data[..], zbuffer.data[..], color') ==
            Step(Frame(old(canvas.data[..]), old(zbuffer.data[..]), color), tri, fragment, canvas.width, canvas.height, px, py)
  {
    ghost var st := Frame(canvas.data[..], zbuffer.data[..], color);
    color' := color;
    if BaryDet(tri) == 0.0 {
      return;
    }
    var b := Barycentric(tri, px, py);
    if b.x < 0.0 || b.y < 0.0 || b.z < 0.0 {
      assert !Covered(tri, px, py);
      return;
    }
    if px < 0 || py < 0 || AsInt(canvas.width) <= px || AsInt(canvas.height) <= py {
      assert !OnScreen(px, py, canvas.width, canvas.height);
      return;
    }
    assert Covered(tri, px, py) && OnScreen(px, py, canvas.width, canvas.height);
    var z := Depth(tri, b);
    var i := py * canvas.width + px;
    assert i == Index(px, py, canvas.width, canvas.height);
    if z > zbuffer.At(i) {
      var f := fragment(b, color);
      color' := f.1;
      if !f.0 {
        canvas.Put(i, f.1);
        zbuffer.Put(i, z);
        assert Frame(canvas.data[..], zbuffer.data[..], color') == Frame(st.canvas[i := f.1], st.depth[i := z], f.1);
      }
    }
  }

  /**
   * draw_shaded_triangle: the canvas and the z-buffer end as the walk
   * Rasterize prescribes; `color0` is the value the uninitialised local
   * `color` holds before the first fragment call.
   */
  method DrawShadedTriangle<T>(tri: seq<Vec>, fragment: Fragment<T>, canvas: Image<T>, zbuffer: Image<real>, color0: T)
    requires ScreenTriangle(tri) && canvas.Valid() && zbuffer.Valid()
    requires zbuffer.width == canvas.width && zbuffer.height == canvas.height
    requires canvas.data as object != zbuffer.data as object
    modifies canvas.data, zbuffer.data
    ensures var r := Rasterize(Frame(old(canvas.data[..]), old(zbuffer.data[..]), color0), tri, fragment,
                               canvas.width, canvas.height);
            canvas.data[..] == r.canvas && zbuffer.data[..] == r.depth
  {
    var w, h := canvas.width, canvas.height;
    var box := BoundingBox(tri, w, h);
    ghost var st0 := Frame(canvas.data[..], zbuffer.data[..], color0);
    var color := color0;
    var px := box.xlo;
    while px <= box.xhi
      invariant box.xlo <= px <= Max(box.xlo, box.xhi + 1)
      invariant Frame(canvas.data[..], zbuffer.data[..], color) ==
                Columns(st0, tri, fragment, w, h, box.xlo, px, box.ylo, box.yhi + 1)
    {
      ghost var done := Columns(st0, tri, fragment, w, h, box.xlo, px, box.ylo, box.yhi + 1);
      var py := box.ylo;
      while py <= box.yhi
        invariant box.ylo <= py <= Max(box.ylo, box.yhi + 1)
        invariant Frame(canvas.data[..], zbuffer.data[..], color) == Column(done, tri, fragment, w, h, px, box.ylo, py)
      {
        color := ShadePixel(tri, fragment, canvas, zbuffer, px, py, color);
        py := py + 1;
      }
      px := px + 1;
    }
  }

  // ------------------------------------------ draw_triangle_textured_illuminated

  /**
   * Texture coordinates (already scaled to texels) and normals per corner,
   * and the light direction. Each texture coordinate lies within the
   * texture, as draw_model arranges by clamping to `width - 1` and
   * `height - 1`.
   */
  predicate TexturedInputs(tex: seq<Vec>, normals: seq<Vec>, light: Vec, tw: nat, th: nat)
  {
    |tex| == 3 && |normals| == 3 && |light| == 3 &&
    (forall k :: 0 <= k < 3 ==> |tex[k]| >= 2 && |normals[k]| == 3) &&
    forall k :: 0 <= k < 3 ==>
      0.0 <= tex[k][0] <= (tw - 1) as real && 0.0 <= tex[k][1] <= (th - 1) as real
  }

  /** lighting_intensity: the interpolated normal dotted with the light direction. */
  function Intensity(normals: seq<Vec>, light: Vec, b: Bary): real
    requires |normals| == 3 && |light| == 3 && forall k :: 0 <= k < 3 ==> |normals[k]| == 3
  {
    var normal := Add(Add(Scale(b.x, normals[0]), Scale(b.y, normals[1])), Scale(b.z, normals[2]));
    Dot(normal, light)
  }

  /** The interpolated texture coordinates, converted to `int`. */
  function TexelX(tex: seq<Vec>, b: Bary): int
    requires |tex| == 3 && forall k :: 0 <= k < 3 ==> |tex[k]| >= 2
  {
    Trunc(b.Mix(tex[0][0], tex[1][0], tex[2][0]))
  }

  function TexelY(tex: seq<Vec>, b: Bary): int
    requires |tex| == 3 && forall k :: 0 <= k < 3 ==> |tex[k]| >= 2
  {
    Trunc(b.Mix(tex[0][1], tex[1][1], tex[2][1]))
  }

  /** Inside the triangle, the interpolated texture coordinates address a texel of the texture. */
  lemma TexelInRange(tex: seq<Vec>, normals: seq<Vec>, light: Vec, tw: nat, th: nat, b: Bary)
    requires TexturedInputs(tex, normals, light, tw, th)
    requires b.Inside() && b.x + b.y + b.z == 1.0
    ensures 0 <= TexelX(tex, b) < tw && 0 <= TexelY(tex, b) < th
  {
    MixAtLeast(b, tex[0][0], tex[1][0], tex[2][0], 0.0);
    MixAtMost(b, tex[0][0], tex[1][0], tex[2][0], (tw - 1) as real);
    MixAtLeast(b, tex[0][1], tex[1][1], tex[2][1], 0.0);
    MixAtMost(b, tex[0][1], tex[1][1], tex[2][1], (th - 1) as real);
  }

  lemma TexelAtIndex(texels: seq<Pixel>, tw: nat, th: nat, tex: seq<Vec>, b: Bary)
    requires |tex| == 3 && forall k :: 0 <= k < 3 ==> |tex[k]| >= 2
    requires |texels| == tw * th && 0 <= TexelX(tex, b) < tw && 0 <= TexelY(tex, b) < th
    ensures TexelAt(texels, tw, th, tex, b) == texels[Index(TexelX(tex, b), TexelY(tex, b), tw, th)]
  {
  }

  /** The texel the pixel reads; a lookup outside the texture (which TexelInRange excludes inside the triangle) reads 0. */
  function TexelAt(texels: seq<Pixel>, tw: nat, th: nat, tex: seq<Vec>, b: Bary): Pixel
    requires |tex| == 3 && forall k :: 0 <= k < 3 ==> |tex[k]| >= 2
  {
    var tx, ty := TexelX(tex, b), TexelY(tex, b);
    if 0 <= tx < tw && 0 <= ty < th && |texels| == tw * th then texels[Index(tx, ty, tw, th)] else 0
  }

  /**
   * illuminated_color: 0xff000000 plus, for each of red, green and blue, the
   * channel scaled by the intensity and converted to `uint32`, shifted into
   * place; all in 32-bit unsigned arithmetic. A conversion of 2^32 or more is
   * undefined in C++ and is taken modulo 2^32 here.
   */
  function Illuminate(color: Pixel, l: real): (r: Pixel)
    requires l > 0.0
  {
    Lit(Scaled(l, ByteValue(Channel(color, 0))), Scaled(l, ByteValue(Channel(color, 1))),
        Scaled(l, ByteValue(Channel(color, 2))))
  }

  /** `(pixel_T)(lighting_intensity * channel)` for a positive intensity. */
  function Scaled(l: real, c: nat): (t: nat)
    requires l > 0.0
    ensures t < UINT_RANGE
  {
    Wrap(Trunc(l * c as real))
  }

  /** 0xff000000 += t0, += t1 * 256, += t2 * 256 * 256, in 32-bit unsigned arithmetic. */
  function Lit(t0: nat, t1: nat, t2: nat): Pixel
  {
    FromUint(Wrap(Wrap(Wrap(0xff00_0000 + t0) + Wrap(t1 * 0x100)) + Wrap(t2 * 0x1_0000)))
  }

  /** Reduction modulo 2^32, as `uint32_t` arithmetic does. */
  function Wrap(n: int): (r: nat)
    ensures r < UINT_RANGE
    ensures 0 <= n < UINT_RANGE ==> r == n
  {
    n % UINT_RANGE
  }

  /** Byte-sized terms do not carry: they land in red, green and blue, under an opaque alpha. */
  lemma LitExact(t0: nat, t1: nat, t2: nat)
    requires t0 < 256 && t1 < 256 && t2 < 256
    ensures var r := Lit(t0, t1, t2);
            ByteValue(Channel(r, 0)) == t0 && ByteValue(Channel(r, 1)) == t1 &&
            ByteValue(Channel(r, 2)) == t2 && Channel(r, 3) == 0xff
  {
    assert Wrap(t1 * 0x100) == t1 * 0x100 && Wrap(t2 * 0x1_0000) == t2 * 0x1_0000;
    var sum0 := Wrap(0xff00_0000 + t0);
    assert sum0 == 0xff00_0000 + t0;
    var sum1 := Wrap(sum0 + t1 * 0x100);
    assert sum1 == 0xff00_0000 + t0 + t1 * 0x100;
    var sum2 := Wrap(sum1 + t2 * 0x1_0000);
    assert sum2 == 0xff00_0000 + t0 + t1 * 0x100 + t2 * 0x1_0000;
    PackedSum(t0, t1, t2);
    assert Min(t0, 255) == t0 && Min(t1, 255) == t1 && Min(t2, 255) == t2;
    assert Lit(t0, t1, t2) == FromUint(sum2);
    var r := Lit(t0, t1, t2);
    assert ByteValue(Channel(r, 3)) == ByteValue(0xff);
    ByteValueInjective(Channel(r, 3), 0xff);
  }

  /**
   * With an intensity of at most 1 no sum carries into the next byte: each
   * of red, green and blue is its channel value c_k scaled and truncated,
   * and alpha is 0xff.
   */
  lemma IlluminateExact(color: Pixel, l: real, c0: nat, c1: nat, c2: nat)
    requires 0.0 < l <= 1.0
    requires c0 == ByteValue(Channel(color, 0)) && c1 == ByteValue(Channel(color, 1)) && c2 == ByteValue(Channel(color, 2))
    ensures var r := Illuminate(color, l);
            Channel(r, 3) == 0xff && ByteValue(Channel(r, 0)) == Trunc(l * c0 as real) &&
            ByteValue(Channel(r, 1)) == Trunc(l * c1 as real) && ByteValue(Channel(r, 2)) == Trunc(l * c2 as real)
  {
    assert Illuminate(color, l) == Lit(Scaled(l, c0), Scaled(l, c1), Scaled(l, c2));
    ScaledLitExact(l, c0, c1, c2);
  }

  lemma ScaledLitExact(l: real, c0: nat, c1: nat, c2: nat)
    requires 0.0 < l <= 1.0 && c0 < 256 && c1 < 256 && c2 < 256
    ensures var r := Lit(Scaled(l, c0), Scaled(l, c1), Scaled(l, c2));
            Channel(r, 3) == 0xff && ByteValue(Channel(r, 0)) == Trunc(l * c0 as real) &&
            ByteValue(Channel(r, 1)) == Trunc(l * c1 as real) && ByteValue(Channel(r, 2)) == Trunc(l * c2 as real)
  {
    ScaledByte(l, c0);
    ScaledByte(l, c1);
    ScaledByte(l, c2);
    LitExact(Scaled(l, c0), Scaled(l, c1), Scaled(l, c2));
  }

  /** A byte value scaled by an intensity in (0, 1] truncates to a byte value. */
  lemma ScaledByte(l: real, c: nat)
    requires 0.0 < l <= 1.0 && c < 256
    ensures 0 <= Trunc(l * c as real) <= c && Scaled(l, c) == Trunc(l * c as real)
  {
    TruncProduct(l, c);
  }

  lemma TruncProduct(l: real, c: nat)
    requires 0.0 < l <= 1.0
    ensures 0 <= Trunc(l * c as real) <= c
  {
    ProductBelow(l, c as real);
    TruncBelow(l * c as real, c as real, c);
  }

  lemma TruncBelow(y: real, x: real, c: nat)
    requires 0.0 <= y <= x && x == c as real
    ensures 0 <= Trunc(y) <= c
  {
  }

  lemma ProductBelow(l: real, x: real)
    requires 0.0 < l <= 1.0 && x >= 0.0
    ensures 0.0 <= l * x <= x
  {
  }

  /**
   * The texturing and lighting of draw_triangle_textured_illuminated as a
   * fragment stage: a pixel whose intensity is not positive is skipped;
   * otherwise it gets the illuminated texel.
   */
  function Textured(texels: seq<Pixel>, tw: nat, th: nat, tex: seq<Vec>, normals: seq<Vec>, light: Vec): (f: Fragment<Pixel>)
    requires TexturedInputs(tex, normals, light, tw, th)
    ensures forall b, c :: f(b, c).0 <==> Intensity(normals, light, b) <= 0.0
  {
    (b: Bary, c: Pixel) =>
      var l := Intensity(normals, light, b);
      if l <= 0.0 then (true, c) else (false, Illuminate(TexelAt(texels, tw, th, tex, b), l))
  }

  /** The body of the inner loop at pixel P. */
  method LightPixel(tri: seq<Vec>, tex: seq<Vec>, normals: seq<Vec>, zbuffer: Image<real>, canvas: Image<Pixel>,
                    texture: Image<Pixel>, light: Vec, px: int, py: int, ghost color: Pixel) returns (ghost color': Pixel)
    requires ScreenTriangle(tri) && canvas.Valid() && zbuffer.Valid() && texture.Valid()
    requires zbuffer.width == canvas.width && zbuffer.height == canvas.height
    requires canvas.data as object != zbuffer.data as object && texture.data != canvas.data
    requires texture.data as object != zbuffer.data as object
    requires TexturedInputs(tex, normals, light, texture.width, texture.height)
    modifies canvas.data, zbuffer.data
    ensures Frame(canvas.data[..], zbuffer.data[..], color') ==
            Step(Frame(old(canvas.data[..]), old(zbuffer.data[..]), color),
                 tri, Textured(old(texture.data[..]), texture.width, texture.height, tex, normals, light),
                 canvas.width, canvas.height, px, py)
  {
    ghost var st := Frame(canvas.data[..], zbuffer.data[..], color);
    ghost var fragment := Textured(texture.data[..], texture.width, texture.height, tex, normals, light);
    color' := color;
    if BaryDet(tri) == 0.0 {
      assert Step(st, tri, fragment, canvas.width, canvas.height, px, py) == st;
      return;
    }
    var b := Barycentric(tri, px, py);
    if b.x < 0.0 || b.y < 0.0 || b.z < 0.0 {
      assert !Covered(tri, px, py);
      assert Step(st, tri, fragment, canvas.width, canvas.height, px, py) == st;
      return;
    }
    if px < 0 || py < 0 || AsInt(canvas.width) <= px || AsInt(canvas.height) <= py {
      assert !OnScreen(px, py, canvas.width, canvas.height);
      assert Step(st, tri, fragment, canvas.width, canvas.height, px, py) == st;
      return;
    }
    assert Covered(tri, px, py) && OnScreen(px, py, canvas.width, canvas.height);
    color' := LightCovered(tri, tex, normals, zbuffer, canvas, texture, light, px, py, b, color);
  }

  /** The part of LightPixel after the coverage and screen tests have passed. */
  method LightCovered(tri: seq<Vec>, tex: seq<Vec>, normals: seq<Vec>, zbuffer: Image<real>, canvas: Image<Pixel>,
                      texture: Image<Pixel>, light: Vec, px: int, py: int, b: Bary, ghost color: Pixel)
    returns (ghost color': Pixel)
    requires ScreenTriangle(tri) && canvas.Valid() && zbuffer.Valid() && texture.Valid()
    requires zbuffer.width == canvas.width && zbuffer.height == canvas.height
    requires canvas.data as object != zbuffer.data as object && texture.data != canvas.data
    requires texture.data as object != zbuffer.data as object
    requires TexturedInputs(tex, normals, light, texture.width, texture.height)
    requires BaryDet(tri) != 0.0 && b == Barycentric(tri, px, py)
    requires Covered(tri, px, py) && OnScreen(px, py, canvas.width, canvas.height)
    modifies canvas.data, zbuffer.data
    ensures Frame(canvas.data[..], zbuffer.data[..], color') ==
            Step(Frame(old(canvas.data[..]), old(zbuffer.data[..]), color),
                 tri, Textured(old(texture.data[..]), texture.width, texture.height, tex, normals, light),
                 canvas.width, canvas.height, px, py)
  {
    ghost var st := Frame(canvas.data[..], zbuffer.data[..], color);
    ghost var fragment := Textured(texture.data[..], texture.width, texture.height, tex, normals, light);
    color' := color;
    var l := Intensity(normals, light, b);
    var z := Depth(tri, b);
    var i := py * canvas.width + px;
    assert i == Index(px, py, canvas.width, canvas.height);
    TexturedAt(texture.data[..], texture.width, texture.height, tex, normals, light, b, color);
    StepCovered(st, tri, fragment, canvas.width, canvas.height, px, py, i, z);
    if l <= 0.0 {
      return;
    }
    if z > zbuffer.At(i) {
      var texel := FetchTexel(texture, tex, normals, light, b);
      var lit := Illuminate(texel, l);
      canvas.Put(i, lit);
      zbuffer.Put(i, z);
      color' := lit;
    }
  }

  /** The texture read at a pixel inside the triangle: row TexelY, column TexelX, which are in range there. */
  method FetchTexel(texture: Image<Pixel>, tex: seq<Vec>, normals: seq<Vec>, light: Vec, b: Bary) returns (texel: Pixel)
    requires texture.Valid() && TexturedInputs(tex, normals, light, texture.width, texture.height)
    requires b.Inside() && b.x + b.y + b.z == 1.0
    ensures texel == TexelAt(texture.data[..], texture.width, texture.height, tex, b)
  {
    var tx, ty := TexelX(tex, b), TexelY(tex, b);
    TexelInRange(tex, normals, light, texture.width, texture.height, b);
    var ti := ty * texture.width + tx;
    assert ti == Index(tx, ty, texture.width, texture.height);
    texel := texture.At(ti);
    TexelAtIndex(texture.data[..], texture.width, texture.height, tex, b);
  }

  /** One pixel of the walk inside the triangle and on the screen, case by case. */
  lemma StepCovered<T>(st: Frame<T>, tri: seq<Vec>, fragment: Fragment<T>, width: nat, height: nat,
                       px: int, py: int, i: nat, z: real)
    requires ScreenTriangle(tri) && width < UINT_RANGE && height < UINT_RANGE && Sized(st, width, height)
    requires Covered(tri, px, py) && OnScreen(px, py, width, height)
    requires i == Index(px, py, width, height) && z == Depth(tri, Barycentric(tri, px, py))
    ensures var f := fragment(Barycentric(tri, px, py), st.color);
            Step(st, tri, fragment, width, height, px, py) ==
              if z <= st.depth[i] then st
              else if f.0 then Frame(st.canvas, st.depth, f.1)
              else Frame(st.canvas[i := f.1], st.depth[i := z], f.1)
  {
  }

  /** The texturing fragment at one pixel: skipped at a non-positive intensity, else the illuminated texel. */
  lemma TexturedAt(texels: seq<Pixel>, tw: nat, th: nat, tex: seq<Vec>, normals: seq<Vec>, light: Vec, b: Bary, c: Pixel)
    requires TexturedInputs(tex, normals, light, tw, th)
    ensures var l := Intensity(normals, light, b);
            Textured(texels, tw, th, tex, normals, light)(b, c) ==
              if l <= 0.0 then (true, c) else (false, Illuminate(TexelAt(texels, tw, th, tex, b), l))
  {
  }

  /**
   * draw_triangle_textured_illuminated: the same walk as draw_shaded_triangle
   * with the texturing and lighting of Textured as its fragment stage. The
   * intensity test comes before the depth test in the source and after it in
   * Step; neither test changes anything, so the order does not matter.
   */
  method DrawTriangleTexturedIlluminated(tri: seq<Vec>, tex: seq<Vec>, normals: seq<Vec>, zbuffer: Image<real>,
                                         canvas: Image<Pixel>, texture: Image<Pixel>, light: Vec)
    requires ScreenTriangle(tri) && canvas.Valid() && zbuffer.Valid() && texture.Valid()
    requires zbuffer.width == canvas.width && zbuffer.height == canvas.height
    requires canvas.data as object != zbuffer.data as object && texture.data != canvas.data
    requires texture.data as object != zbuffer.data as object
    requires TexturedInputs(tex, normals, light, texture.width, texture.height)
    modifies canvas.data, zbuffer.data
    ensures var r := Rasterize(Frame(old(canvas.data[..]), old(zbuffer.data[..]), 0), tri,
                               Textured(texture.data[..], texture.width, texture.height, tex, normals, light),
                               canvas.width, canvas.height);
            canvas.data[..] == r.canvas && zbuffer.data[..] == r.depth
  {
    var w, h := canvas.width, canvas.height;
    ghost var fragment := Textured(texture.data[..], texture.width, texture.height, tex, normals, light);
    var box := BoundingBox(tri, w, h);
    ghost var st0 := Frame(canvas.data[..], zbuffer.data[..], 0);
    ghost var color: Pixel := 0;
    var px := box.xlo;
    while px <= box.xhi
      invariant box.xlo <= px <= Max(box.xlo, box.xhi + 1)
      invariant texture.data[..] == old(texture.data[..])
      invariant Frame(canvas.data[..], zbuffer.data[..], color) ==
                Columns(st0, tri, fragment, w, h, box.xlo, px, box.ylo, box.yhi + 1)
    {
      ghost var done := Columns(st0, tri, fragment, w, h, box.xlo, px, box.ylo, box.yhi + 1);
      var py := box.ylo;
      while py <= box.yhi
        invariant box.ylo <= py <= Max(box.ylo, box.yhi + 1)
        invariant texture.data[..] == old(texture.data[..])
        invariant Frame(canvas.data[..], zbuffer.data[..], color) == Column(done, tri, fragment, w, h, px, box.ylo, py)
      {
        color := LightPixel(tri, tex, normals, zbuffer, canvas, texture, light, px, py, color);
        py := py + 1;
      }
      px := px + 1;
    }
  }
}
