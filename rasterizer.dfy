// The drawing routines of renderer.h: reflection and Bresenham lines.

module Rasterizer {
  import opened Numeric
  import opened Pixels
  import opened MatVec
  import opened Raster
  import opened RenderHelpers

  // ----------------------------------------------------------------- reflect

  /** `reflect(v, line)`: v mirrored across the direction of line. */
  function Reflect(v: Vec, line: Vec): (r: Vec)
    requires |v| == |line| && Dot(line, line) != 0.0
    ensures |r| == |v|
  {
    Sub(Scale(2.0 * (Dot(v, line) / Dot(line, line)), line), v)
  }

  /** Reflection keeps the component along the line ... */
  lemma ReflectKeepsAlong(v: Vec, line: Vec)
    requires |v| == |line| && Dot(line, line) != 0.0
    ensures Dot(Reflect(v, line), line) == Dot(v, line)
  {
    var along := Scale(2.0 * (Dot(v, line) / Dot(line, line)), line);
    assert Reflect(v, line) == Sub(along, v);
    DotSubLeft(along, v, line);
    AlongDot(v, line);
  }

  /** The part of the reflection along the line has twice v's component along it. */
  lemma AlongDot(v: Vec, line: Vec)
    requires |v| == |line| && Dot(line, line) != 0.0
    ensures Dot(Scale(2.0 * (Dot(v, line) / Dot(line, line)), line), line) == 2.0 * Dot(v, line)
  {
    var d, n := Dot(v, line), Dot(line, line);
    DotScaleLeft(2.0 * (d / n), line, line);
    QuotientTimes(d, n);
  }

  lemma QuotientTimes(d: real, n: real)
    requires n != 0.0
    ensures 2.0 * (d / n) * n == 2.0 * d
  {
  }

  /** ... so reflecting twice across the same line gives the vector back. */
  lemma ReflectInvolution(v: Vec, line: Vec)
    requires |v| == |line| && Dot(line, line) != 0.0
    ensures Reflect(Reflect(v, line), line) == v
  {
    ReflectKeepsAlong(v, line);
  }

  // --------------------------------------------------------------- draw_line

  /**
   * The endpoints as draw_line arranges them: coordinates swapped so that
   * the first one (a) is the major axis, then the endpoints ordered by a.
   */
  datatype Span = Span(steep: bool, a0: int, b0: int, a1: int, b1: int)

  function Orient(x0: int, y0: int, x1: int, y1: int): (s: Span)
    ensures s.a0 <= s.a1 && Abs(s.b1 - s.b0) <= s.a1 - s.a0
    ensures s.a1 - s.a0 == Max(Abs(x1 - x0), Abs(y1 - y0))
    ensures s.steep <==> Abs(x0 - x1) < Abs(y0 - y1)
  {
    var steep := Abs(x0 - x1) < Abs(y0 - y1);
    var a0, b0, a1, b1 := if steep then y0 else x0, if steep then x0 else y0,
                          if steep then y1 else x1, if steep then x1 else y1;
    if a1 < a0 then Span(steep, a1, b1, a0, b0) else Span(steep, a0, b0, a1, b1)
  }

  /**
   * How far the minor coordinate has moved after k steps along the major
   * axis: k * ady / dx rounded to the nearest integer, halves rounded down.
   */
  function Nearest(k: nat, ady: nat, dx: nat): (c: nat)
    requires dx > 0
    ensures -(dx as int) < 2 * k * ady - 2 * dx * c <= dx
  {
    var n, d := 2 * k * ady + dx - 1, 2 * dx;
    assert n == d * (n / d) + n % d && 0 <= n % d < d;
    n / d
  }

  /** Nearest is the only count within half a step of the exact line. */
  lemma NearestUnique(k: nat, ady: nat, dx: nat, c: int)
    requires dx > 0 && -(dx as int) < 2 * k * ady - 2 * dx * c <= dx
    ensures c == Nearest(k, ady, dx)
  {
    var n := Nearest(k, ady, dx);
    if c < n {
      MulLe(2 * dx, c + 1, n);
    } else if c > n {
      MulLe(2 * dx, n + 1, c);
    }
  }

  lemma MulComm(a: int, b: int)
    ensures a * b == b * a
  {
  }

  lemma MulLe(d: nat, a: int, b: int)
    requires a <= b
    ensures d * a <= d * b
  {
  }

  /** Within the first dx steps the minor coordinate moves by at most ady. */
  lemma NearestBounded(k: nat, ady: nat, dx: nat)
    requires dx > 0 && k <= dx
    ensures Nearest(k, ady, dx) <= ady
  {
    var c := Nearest(k, ady, dx);
    if c > ady {
      MulLe(2 * dx, ady + 1, c);
      MulLe(2 * ady, k, dx);
    }
  }

  /** draw_line's `error` after k steps: twice the signed distance of the plotted pixel from the exact line, times dx. */
  function ErrorAt(k: nat, ady: nat, dx: nat): int
    requires dx > 0
  {
    2 * k * ady - 2 * dx * Nearest(k, ady, dx)
  }

  /** One iteration of draw_line's error update moves Nearest from step k to step k + 1. */
  lemma NearestStep(k: nat, ady: nat, dx: nat, error: int)
    requires dx > 0 && ady <= dx
    requires error == ErrorAt(k, ady, dx)
    ensures var e := error + 2 * ady;
            var moved := e > dx;
            Nearest(k + 1, ady, dx) == Nearest(k, ady, dx) + (if moved then 1 else 0) &&
            (if moved then e - 2 * dx else e) == ErrorAt(k + 1, ady, dx)
  {
    var c := Nearest(k, ady, dx);
    ErrorArith(k, ady, dx, c, error);
    if error + 2 * ady > dx {
      NearestUnique(k + 1, ady, dx, c + 1);
    } else {
      NearestUnique(k + 1, ady, dx, c);
    }
  }

  lemma ErrorArith(k: nat, ady: nat, dx: nat, c: int, error: int)
    requires error == 2 * k * ady - 2 * dx * c
    ensures error + 2 * ady == 2 * (k + 1) * ady - 2 * dx * c
    ensures error + 2 * ady - 2 * dx == 2 * (k + 1) * ady - 2 * dx * (c + 1)
  {
    assert 2 * (k + 1) * ady == 2 * k * ady + 2 * ady;
    assert 2 * dx * (c + 1) == 2 * dx * c + 2 * dx;
  }

  /** The minor coordinate after k steps: Nearest counts, in the direction of the far endpoint. */
  function Minor(s: Span, k: nat): int
    requires s.a0 < s.a1
  {
    var dx, ady := s.a1 - s.a0, Abs(s.b1 - s.b0);
    if s.b1 > s.b0 then s.b0 + Nearest(k, ady, dx) else s.b0 - Nearest(k, ady, dx)
  }

  /** The error update of one iteration, restated for the minor coordinate. */
  lemma MinorStep(s: Span, k: nat, error: int)
    requires s.a0 < s.a1 && Abs(s.b1 - s.b0) <= s.a1 - s.a0
    requires error == ErrorAt(k, Abs(s.b1 - s.b0), s.a1 - s.a0)
    ensures var e := error + 2 * Abs(s.b1 - s.b0);
            var moved := e > s.a1 - s.a0;
            Minor(s, k + 1) == Minor(s, k) + (if !moved then 0 else if s.b1 > s.b0 then 1 else -1) &&
            (if moved then e - 2 * (s.a1 - s.a0) else e) == ErrorAt(k + 1, Abs(s.b1 - s.b0), s.a1 - s.a0)
  {
    NearestStep(k, Abs(s.b1 - s.b0), s.a1 - s.a0, error);
  }

  /** Before the first step the minor coordinate is the start's and the error is zero. */
  lemma MinorStart(s: Span)
    requires s.a0 < s.a1 && Abs(s.b1 - s.b0) <= s.a1 - s.a0
    ensures Minor(s, 0) == s.b0 && ErrorAt(0, Abs(s.b1 - s.b0), s.a1 - s.a0) == 0
  {
    NearestUnique(0, Abs(s.b1 - s.b0), s.a1 - s.a0, 0);
  }

  /** Point k of the line in canvas coordinates (x, y). */
  function LinePoint(s: Span, k: nat): (p: (int, int))
    requires s.a0 + k < s.a1
  {
    var b := Minor(s, k);
    if s.steep then (b, s.a0 + k) else (s.a0 + k, b)
  }

  /** The pixels draw_line plots, in the order it plots them. */
  function LinePoints(x0: int, y0: int, x1: int, y1: int): (pts: seq<(int, int)>)
    ensures |pts| == Max(Abs(x1 - x0), Abs(y1 - y0))
  {
    var s := Orient(x0, y0, x1, y1);
    seq(s.a1 - s.a0, k requires 0 <= k < s.a1 - s.a0 => LinePoint(s, k))
  }

  /** Every plotted pixel lies in the bounding box of the two endpoints. */
  lemma LineInBox(x0: int, y0: int, x1: int, y1: int, k: nat)
    requires k < |LinePoints(x0, y0, x1, y1)|
    ensures var p := LinePoints(x0, y0, x1, y1)[k];
            Min(x0, x1) <= p.0 <= Max(x0, x1) && Min(y0, y1) <= p.1 <= Max(y0, y1)
  {
    var s := Orient(x0, y0, x1, y1);
    NearestBounded(k, Abs(s.b1 - s.b0), s.a1 - s.a0);
  }

  /** The plotted pixels are pairwise distinct: each has its own major coordinate. */
  lemma LineDistinct(x0: int, y0: int, x1: int, y1: int, i: nat, j: nat)
    requires i < j < |LinePoints(x0, y0, x1, y1)|
    ensures LinePoints(x0, y0, x1, y1)[i] != LinePoints(x0, y0, x1, y1)[j]
  {
  }

  /**
   * Bresenham's guarantee: at step k the minor coordinate is within half a
   * pixel of the exact line through the two endpoints.
   */
  lemma LineNearest(x0: int, y0: int, x1: int, y1: int, k: nat)
    requires k < |LinePoints(x0, y0, x1, y1)|
    ensures var s := Orient(x0, y0, x1, y1);
            var p := LinePoints(x0, y0, x1, y1)[k];
            var b := if s.steep then p.0 else p.1;
            -(s.a1 - s.a0) < 2 * k * Abs(s.b1 - s.b0) - 2 * (s.a1 - s.a0) * Abs(b - s.b0) <= s.a1 - s.a0
  {
  }

  /** The endpoint draw_line starts from, and the one its `x < x1` loop never reaches. */
  function NearEnd(x0: int, y0: int, x1: int, y1: int): (p: (int, int))
    ensures p == (x0, y0) || p == (x1, y1)
  {
    var s := Orient(x0, y0, x1, y1);
    if s.steep then (s.b0, s.a0) else (s.a0, s.b0)
  }

  function FarEnd(x0: int, y0: int, x1: int, y1: int): (p: (int, int))
    ensures p == (x0, y0) || p == (x1, y1)
    ensures (x0, y0) != (x1, y1) ==> p != NearEnd(x0, y0, x1, y1)
  {
    var s := Orient(x0, y0, x1, y1);
    if s.steep then (s.b1, s.a1) else (s.a1, s.b1)
  }

  /** A line starts at its near endpoint and never plots its far endpoint. */
  lemma LineEnds(x0: int, y0: int, x1: int, y1: int)
    ensures |LinePoints(x0, y0, x1, y1)| > 0 ==> LinePoints(x0, y0, x1, y1)[0] == NearEnd(x0, y0, x1, y1)
    ensures FarEnd(x0, y0, x1, y1) !in LinePoints(x0, y0, x1, y1)
  {
    var s := Orient(x0, y0, x1, y1);
    var pts := LinePoints(x0, y0, x1, y1);
    if |pts| > 0 {
      NearestUnique(0, Abs(s.b1 - s.b0), s.a1 - s.a0, 0);
    }
  }

  predicate OnCanvas(x: int, y: int, width: nat, height: nat)
  {
    0 <= x < width && 0 <= y < height
  }

  /** The buffer positions draw_line writes, when both endpoints are on the canvas. */
  function LineIndices(x0: int, y0: int, x1: int, y1: int, width: nat, height: nat): (idx: seq<nat>)
    requires OnCanvas(x0, y0, width, height) && OnCanvas(x1, y1, width, height)
    ensures |idx| == |LinePoints(x0, y0, x1, y1)|
    ensures forall k :: 0 <= k < |idx| ==> idx[k] < width * height
  {
    var pts := LinePoints(x0, y0, x1, y1);
    seq(|pts|, k requires 0 <= k < |pts| =>
      LineInBox(x0, y0, x1, y1, k);
      Index(pts[k].0, pts[k].1, width, height))
  }

  /** The position draw_line writes at step k is entry k of LineIndices. */
  lemma LineStepIndex(x0: int, y0: int, x1: int, y1: int, width: nat, height: nat, k: nat, x: int, y: int)
    requires OnCanvas(x0, y0, width, height) && OnCanvas(x1, y1, width, height)
    requires var s := Orient(x0, y0, x1, y1);
             s.a0 + k < s.a1 && x == s.a0 + k && y == Minor(s, k)
    ensures var s := Orient(x0, y0, x1, y1);
            var i := LineIndices(x0, y0, x1, y1, width, height)[k];
            (s.steep ==> i == width * x + y) && (!s.steep ==> i == width * y + x)
  {
    var s := Orient(x0, y0, x1, y1);
    var p := LinePoint(s, k);
    assert LinePoints(x0, y0, x1, y1)[k] == p;
    LineInBox(x0, y0, x1, y1, k);
    assert LineIndices(x0, y0, x1, y1, width, height)[k] == Index(p.0, p.1, width, height) == p.1 * width + p.0;
    if s.steep {
      assert p.1 == x;
      MulComm(x, width);
    } else {
      assert p.1 == y;
      MulComm(y, width);
    }
  }

  /** base with color written at each position of idx in turn; positions outside base are skipped. */
  function Paint<T>(base: seq<T>, idx: seq<nat>, color: T): (r: seq<T>)
    ensures |r| == |base|
  {
    if |idx| == 0 then base
    else
      var p := Paint(base, idx[..|idx| - 1], color);
      if idx[|idx| - 1] < |p| then p[idx[|idx| - 1] := color] else p
  }

  /** Painting sets exactly the listed positions to color and keeps every other one. */
  lemma {:induction false} PaintSets<T>(base: seq<T>, idx: seq<nat>, color: T)
    ensures forall i :: 0 <= i < |base| ==> Paint(base, idx, color)[i] == if i in idx then color else base[i]
  {
    if |idx| > 0 {
      var front := idx[..|idx| - 1];
      PaintSets(base, front, color);
      assert idx == front + [idx[|idx| - 1]];
      assert forall i :: i in idx <==> i in front || i == idx[|idx| - 1];
    }
  }

  /** Painting one more listed position is one more single-position update. */
  lemma PaintExtend<T>(base: seq<T>, idx: seq<nat>, k: nat, color: T)
    requires k < |idx| && idx[k] < |base|
    ensures Paint(base, idx[..k + 1], color) == Paint(base, idx[..k], color)[idx[k] := color]
  {
    assert idx[..k + 1][..k] == idx[..k];
  }

  /**
   * draw_line: -1 and no change when an endpoint is off the canvas;
   * otherwise 0, with exactly the pixels of LinePoints set to color.
   */
  method DrawLine<T>(color: T, canvas: Image<T>, x0: int, y0: int, x1: int, y1: int) returns (r: int)
    requires canvas.Valid()
    modifies canvas.data
    ensures !(OnCanvas(x0, y0, canvas.width, canvas.height) && OnCanvas(x1, y1, canvas.width, canvas.height)) ==>
              r == -1 && canvas.data[..] == old(canvas.data[..])
    ensures OnCanvas(x0, y0, canvas.width, canvas.height) && OnCanvas(x1, y1, canvas.width, canvas.height) ==>
              r == 0 &&
              canvas.data[..] == Paint(old(canvas.data[..]), LineIndices(x0, y0, x1, y1, canvas.width, canvas.height), color)
  {
    if x0 < 0 || x1 < 0 || y0 < 0 || y1 < 0 ||
       x0 >= canvas.width || x1 >= canvas.width || y0 >= canvas.height || y1 >= canvas.height {
      return -1;
    }
    PlotSpan(color, canvas, x0, y0, x1, y1);
    return 0;
  }

  /** The stepping loop of draw_line, once both endpoints are known to be on the canvas. */
  method PlotSpan<T>(color: T, canvas: Image<T>, x0: int, y0: int, x1: int, y1: int)
    requires canvas.Valid()
    requires OnCanvas(x0, y0, canvas.width, canvas.height) && OnCanvas(x1, y1, canvas.width, canvas.height)
    modifies canvas.data
    ensures canvas.data[..] == Paint(old(canvas.data[..]), LineIndices(x0, y0, x1, y1, canvas.width, canvas.height), color)
  {
    // the swaps that make x the major axis and order the endpoints along it
    var s := Orient(x0, y0, x1, y1);
    var steep, xa, ya, xb, yb := s.steep, s.a0, s.b0, s.a1, s.b1;
    ghost var lines := LineIndices(x0, y0, x1, y1, canvas.width, canvas.height);
    ghost var before := canvas.data[..];
    var dx := xb - xa;
    var dy := yb - ya;
    var derror := Abs(2 * dy);
    var error := 0;
    var y := ya;
    var x := xa;
    if dx > 0 {
      MinorStart(s);
    }
    while x < xb
      invariant xa <= x <= xb
      invariant dx > 0 ==> error == ErrorAt(x - xa, Abs(dy), dx) && y == Minor(s, x - xa)
      invariant canvas.data[..] == Paint(before, lines[..x - xa], color)
    {
      y, error := PlotAndAdvance(color, canvas, x0, y0, x1, y1, s, x, y, error, derror, before);
      x := x + 1;
    }
    assert lines[..x - xa] == lines;
  }

  /** One iteration of the stepping loop: the plot at step k = x - a0, then the error update. */
  method PlotAndAdvance<T>(color: T, canvas: Image<T>, x0: int, y0: int, x1: int, y1: int, s: Span,
                           x: int, y: int, error: int, derror: int, ghost before: seq<T>) returns (y': int, error': int)
    requires canvas.Valid()
    requires OnCanvas(x0, y0, canvas.width, canvas.height) && OnCanvas(x1, y1, canvas.width, canvas.height)
    requires s == Orient(x0, y0, x1, y1) && s.a0 <= x < s.a1 && derror == Abs(2 * (s.b1 - s.b0))
    requires error == ErrorAt(x - s.a0, Abs(s.b1 - s.b0), s.a1 - s.a0) && y == Minor(s, x - s.a0)
    requires canvas.data[..] == Paint(before, LineIndices(x0, y0, x1, y1, canvas.width, canvas.height)[..x - s.a0], color)
    modifies canvas.data
    ensures error' == ErrorAt(x + 1 - s.a0, Abs(s.b1 - s.b0), s.a1 - s.a0) && y' == Minor(s, x + 1 - s.a0)
    ensures canvas.data[..] == Paint(before, LineIndices(x0, y0, x1, y1, canvas.width, canvas.height)[..x + 1 - s.a0], color)
  {
    ghost var k := x - s.a0;
    PlotPoint(color, canvas, x0, y0, x1, y1, s.steep, x, y, k, before);
    y', error' := Advance(s, k, y, error, derror);
  }

  /** One plot of the stepping loop: the pixel at step k, the major coordinate x and the minor y. */
  method PlotPoint<T>(color: T, canvas: Image<T>, x0: int, y0: int, x1: int, y1: int, steep: bool,
                      x: int, y: int, ghost k: nat, ghost before: seq<T>)
    requires canvas.Valid()
    requires OnCanvas(x0, y0, canvas.width, canvas.height) && OnCanvas(x1, y1, canvas.width, canvas.height)
    requires var s := Orient(x0, y0, x1, y1);
             steep == s.steep && s.a0 + k < s.a1 && x == s.a0 + k && y == Minor(s, k)
    requires canvas.data[..] == Paint(before, LineIndices(x0, y0, x1, y1, canvas.width, canvas.height)[..k], color)
    modifies canvas.data
    ensures canvas.data[..] == Paint(before, LineIndices(x0, y0, x1, y1, canvas.width, canvas.height)[..k + 1], color)
  {
    ghost var lines := LineIndices(x0, y0, x1, y1, canvas.width, canvas.height);
    LineStepIndex(x0, y0, x1, y1, canvas.width, canvas.height, k, x, y);
    var idx := if steep then canvas.width * x + y else canvas.width * y + x;
    assert idx == lines[k] < canvas.data.Length;
    canvas.Put(idx, color);
    PaintExtend(before, lines, k, color);
  }

  /** The error update that follows each plot: the minor coordinate moves once the error passes dx. */
  method Advance(s: Span, ghost k: nat, y: int, error: int, derror: int) returns (y': int, error': int)
    requires s.a0 + k < s.a1 && Abs(s.b1 - s.b0) <= s.a1 - s.a0 && derror == Abs(2 * (s.b1 - s.b0))
    requires error == ErrorAt(k, Abs(s.b1 - s.b0), s.a1 - s.a0) && y == Minor(s, k)
    ensures error' == ErrorAt(k + 1, Abs(s.b1 - s.b0), s.a1 - s.a0) && y' == Minor(s, k + 1)
  {
    MinorStep(s, k, error);
    var dx := s.a1 - s.a0;
    y', error' := y, error + derror;
    if error' > dx {
      y' := y' + (if s.b1 > s.b0 then 1 else -1);
      error' := error' - 2 * dx;
    }
  }
}
