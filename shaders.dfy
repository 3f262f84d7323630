// The shaders of main.cpp: the vertex stage they share, which fills one row
// of each per-corner ("varying") matrix; the fragment rules of the flat,
// posterization, Phong and carcass shaders; and the render loop of main,
// which runs the vertex stage on the three corners of each face and then
// draws the face with draw_shaded_triangle.

module Shaders {
  import opened Numeric
  import opened Wrappers
  import opened Pixels
  import opened MatVec
  import opened Raster
  import opened RenderHelpers
  import opened Triangles
  import opened Mesh
  import opened ImageOutput
  import opened Posterization

  // ------------------------------------------------------------ constants

  /** BACKGROUND_COLOR: opaque black. */
  const BACKGROUND: Pixel := 0xFF000000

  /** The colour the flat shader writes (its alpha byte is 0). */
  const FLAT_COLOR: Pixel := 0xa0a0a0

  /** The colour of the posterization fall-through and of the carcass shader's edges. */
  const EDGE_COLOR: Pixel := 0xffc0c0c0

  /** `default_channel` of the Phong shader. */
  const DEFAULT_CHANNEL: nat := 0xe0

  /** `threshhold` of the carcass shader. */
  const THRESHOLD: real := 0.005

  /** The ambient term main hands to the shader. */
  const AMBIENT: int := 5

  /** The palette a posterization shader starts with: one grey band up to 1.0. */
  function DefaultPalette(): (p: Palette)
    ensures WellFormed(p) && |p| == 1
  {
    [Band(0xffa0a0a0, 1.0)]
  }

  // ------------------------------------------------- posterization selection

  /** The first entry at or after i whose bound lies strictly above diffuse, if there is one. */
  function FirstAbove(p: Palette, diffuse: real, i: nat): (r: Option<nat>)
    ensures r.Some? ==> i <= r.value < |p| && diffuse < p[r.value].bound
    ensures r.Some? ==> forall j :: i <= j < r.value ==> p[j].bound <= diffuse
    ensures r.None? ==> forall j :: i <= j < |p| ==> p[j].bound <= diffuse
    decreases |p| - i
  {
    if i >= |p| then None
    else if diffuse < p[i].bound then Some(i)
    else FirstAbove(p, diffuse, i + 1)
  }

  /** The entry the posterization loop stops on. */
  function Select(p: Palette, diffuse: real): (r: Option<nat>)
    ensures r.Some? ==> r.value < |p|
  {
    FirstAbove(p, diffuse, 0)
  }

  /** The colour the posterization fragment writes: that of the selected entry, else EDGE_COLOR. */
  function PosterColor(p: Palette, diffuse: real): Pixel
  {
    match Select(p, diffuse)
    case Some(i) => p[i].color
    case None => EDGE_COLOR
  }

  /** The search loop of the posterization fragment; it never discards. */
  method PosterizeFragment(p: Palette, diffuse: real) returns (discard: bool, color: Pixel)
    ensures !discard && color == PosterColor(p, diffuse)
  {
    var i := 0;
    while i < |p|
      invariant 0 <= i <= |p|
      invariant FirstAbove(p, diffuse, i) == Select(p, diffuse)
    {
      if diffuse < p[i].bound {
        return false, p[i].color;
      }
      i := i + 1;
    }
    return false, EDGE_COLOR;
  }

  /**
   * In a palette with rising bounds, entry i is selected exactly when
   * diffuse lies in its band: at or above the bound before it and below its own.
   */
  lemma SelectInBand(p: Palette, diffuse: real, i: nat)
    requires Increasing(p)
    ensures Select(p, diffuse) == Some(i) <==>
            i < |p| && (i == 0 || p[i - 1].bound <= diffuse) && diffuse < p[i].bound
  {
    IncreasingSorted(p);
    if i < |p| && (i == 0 || p[i - 1].bound <= diffuse) && diffuse < p[i].bound {
      forall j | 0 <= j < i ensures p[j].bound <= diffuse {
        if j < i - 1 {
          assert p[j].bound < p[i - 1].bound;
        }
      }
    }
  }

  /** A well-formed palette selects an entry for every diffuse term below 1.0, so the colour is opaque. */
  lemma SelectBelowOne(p: Palette, diffuse: real)
    requires WellFormed(p) && diffuse < 1.0
    ensures Select(p, diffuse).Some?
    ensures Channel(PosterColor(p, diffuse), 3) == 0xff
  {
    assert p[|p| - 1].bound == 1.0;
  }

  /** A diffuse term of 1.0 or more passes every bound of a well-formed palette and falls through to EDGE_COLOR. */
  lemma SelectAtOne(p: Palette, diffuse: real)
    requires WellFormed(p) && 1.0 <= diffuse
    ensures Select(p, diffuse).None? && PosterColor(p, diffuse) == EDGE_COLOR
  {
    BoundsBelowOne(p);
  }

  /** A larger diffuse term selects an entry no earlier in the palette, and selects one only if the smaller one does. */
  lemma SelectMonotone(p: Palette, d1: real, d2: real)
    requires d1 <= d2
    ensures Select(p, d2).Some? ==> Select(p, d1).Some? && Select(p, d1).value <= Select(p, d2).value
  {
  }

  // ---------------------------------------------------------------- lighting

  /**
   * `normalized()` with the zero-norm case made explicit: there the division
   * yields NaN components, represented by None.
   */
  function Unit(v: Vec, sqrt: real -> real): (r: Option<Vec>)
    ensures r.Some? <==> Norm(v, sqrt) != 0.0
    ensures r.Some? ==> |r.value| == |v| && forall i :: 0 <= i < |v| ==> r.value[i] * Norm(v, sqrt) == v[i]
  {
    if Norm(v, sqrt) == 0.0 then None else Some(Normalized(v, sqrt))
  }

  /** The uniforms a fragment reads. */
  datatype Uniforms = Uniforms(ambient: int, colors: Palette, m: Mat, mIT: Mat)

  predicate UniformsOk(u: Uniforms)
  {
    IsMat(u.m, 4, 4) && IsMat(u.mIT, 4, 4)
  }

  /**
   * The diffuse term of the lighting shaders: the interpolated normal,
   * normalised, carried through M_IT and normalised again, dotted with the
   * light direction carried through M and normalised, and floored at 0 by
   * `std::max(0.0, n*l)`. A NaN product (from a zero-norm vector) makes
   * `std::max` return its first argument, 0.
   */
  function Diffuse(u: Uniforms, nrm: Mat, light: Vec, sqrt: real -> real, b: Bary): (d: real)
    requires UniformsOk(u) && IsMat(nrm, 3, 3) && |light| == 3
    ensures 0.0 <= d
    ensures d == 0.0 || exists n, l :: LitPair(u, nrm, light, sqrt, b) == Some((n, l)) && d == Dot(n, l)
  {
    match LitPair(u, nrm, light, sqrt, b)
    case None => 0.0
    case Some((n, l)) => if 0.0 < Dot(n, l) then Dot(n, l) else 0.0
  }

  /** The transformed unit normal n and unit light direction l, when neither normalisation divides by zero. */
  function LitPair(u: Uniforms, nrm: Mat, light: Vec, sqrt: real -> real, b: Bary): (r: Option<(Vec, Vec)>)
    requires UniformsOk(u) && IsMat(nrm, 3, 3) && |light| == 3
    ensures r.Some? ==> |r.value.0| == 3 && |r.value.1| == 3
  {
    var surface := MatVecMul(Transpose(nrm), [b.x, b.y, b.z]);
    match Unit(surface, sqrt)
    case None => None
    case Some(s) =>
      var n := Unit(Proj(MatVecMul(u.mIT, Embed(s, 4, 1.0)), 3), sqrt);
      var l := Unit(Proj(MatVecMul(u.m, Embed(light, 4, 1.0)), 3), sqrt);
      if n.Some? && l.Some? then Some((n.value, l.value)) else None
  }

  /** sqrt returns the non-negative square root. */
  ghost predicate IsSqrt(sqrt: real -> real)
  {
    forall x: real {:trigger sqrt(x)} :: 0.0 <= x ==> 0.0 <= sqrt(x) && sqrt(x) * sqrt(x) == x
  }

  /** With a true square root the diffuse term never exceeds 1: it is a dot product of two unit vectors. */
  lemma DiffuseAtMostOne(u: Uniforms, nrm: Mat, light: Vec, sqrt: real -> real, b: Bary)
    requires UniformsOk(u) && IsMat(nrm, 3, 3) && |light| == 3 && IsSqrt(sqrt)
    ensures Diffuse(u, nrm, light, sqrt, b) <= 1.0
  {
    match LitPair(u, nrm, light, sqrt, b)
    case None =>
    case Some((n, l)) =>
      var surface := MatVecMul(Transpose(nrm), [b.x, b.y, b.z]);
      var s := Unit(surface, sqrt).value;
      var vn := Proj(MatVecMul(u.mIT, Embed(s, 4, 1.0)), 3);
      var vl := Proj(MatVecMul(u.m, Embed(light, 4, 1.0)), 3);
      UnitLength(vn, sqrt);
      UnitLength(vl, sqrt);
      UnitDot(n, l);
  }

  /** A normalised vector has length 1. */
  lemma UnitLength(v: Vec, sqrt: real -> real)
    requires IsSqrt(sqrt) && Norm(v, sqrt) != 0.0
    ensures var n := Unit(v, sqrt).value; Dot(n, n) == 1.0
  {
    var n := Unit(v, sqrt).value;
    var s := Norm(v, sqrt);
    assert n == Div(v, s);
    DotSelfNonNegative(v);
    assert s * s == Dot(v, v);
    DotDivLeft(v, s, n);
    DotCommutative(v, n);
    DotDivLeft(v, s, v);
    DivBySquare(Dot(v, v), s);
  }

  lemma DivBySquare(q: real, s: real)
    requires s != 0.0 && s * s == q
    ensures q / s / s == 1.0
  {
    assert q / s == s;
  }

  /** The dot product of a vector with itself is a sum of squares. */
  lemma {:induction false} DotSelfNonNegative(a: Vec)
    ensures 0.0 <= Dot(a, a)
    decreases |a|
  {
    if |a| > 0 {
      DotSelfNonNegative(a[1..]);
      SquareNonNegative(a[0]);
    }
  }

  lemma SquareNonNegative(x: real)
    ensures 0.0 <= x * x
  {
  }

  /** Two unit vectors have a dot product of at most 1, since the square of their difference is not negative. */
  lemma UnitDot(n: Vec, l: Vec)
    requires |n| == |l| && Dot(n, n) == 1.0 && Dot(l, l) == 1.0
    ensures Dot(n, l) <= 1.0
  {
    var d := Sub(n, l);
    DotSelfNonNegative(d);
    DotSubLeft(n, l, d);
    DotCommutative(n, d);
    DotCommutative(l, d);
    DotSubLeft(n, l, n);
    DotSubLeft(n, l, l);
    DotCommutative(n, l);
  }

  // ------------------------------------------------------------ Phong bytes

  /**
   * The byte each colour channel of the Phong shader receives:
   * `uniform_ambient + 0xe0 * diffuse`, truncated and reduced modulo 256.
   * Inside [0, 256) this is the C++ conversion to `uint8_t`; outside it the
   * conversion is undefined, and the model wraps.
   */
  function PhongByte(ambient: int, diffuse: real): Byte
  {
    (Trunc(ambient as real + DEFAULT_CHANNEL as real * diffuse) % 256) as Byte
  }

  /** With the ambient term main uses and a diffuse term in [0, 1], the byte is the truncated sum, from 5 to 229. */
  lemma PhongByteExact(diffuse: real)
    requires 0.0 <= diffuse <= 1.0
    ensures ByteValue(PhongByte(AMBIENT, diffuse)) == Trunc(AMBIENT as real + DEFAULT_CHANNEL as real * diffuse)
    ensures 5 <= ByteValue(PhongByte(AMBIENT, diffuse)) <= 229
  {
    var x := AMBIENT as real + DEFAULT_CHANNEL as real * diffuse;
    assert 5.0 <= x <= 229.0;
    var t := Trunc(x);
    assert 5 <= t <= 229;
    assert t % 256 == t;
    ByteOfValue(t);
  }

  /** With a true square root and main's ambient term, every Phong byte is the truncated sum, from 5 to 229: it never wraps. */
  lemma PhongInRange(u: Uniforms, nrm: Mat, light: Vec, sqrt: real -> real, b: Bary)
    requires UniformsOk(u) && IsMat(nrm, 3, 3) && |light| == 3 && IsSqrt(sqrt)
    ensures var d := Diffuse(u, nrm, light, sqrt, b);
            ByteValue(PhongByte(AMBIENT, d)) == Trunc(AMBIENT as real + DEFAULT_CHANNEL as real * d) &&
            5 <= ByteValue(PhongByte(AMBIENT, d)) <= 229
  {
    DiffuseAtMostOne(u, nrm, light, sqrt, b);
    PhongByteExact(Diffuse(u, nrm, light, sqrt, b));
  }

  /** The colour after the Phong write: bytes 0, 1 and 2 all PhongByte, byte 3 as it was. */
  function PhongColor(ambient: int, diffuse: real, color: Pixel): (r: Pixel)
    ensures forall k :: 0 <= k < 3 ==> Channel(r, k) == PhongByte(ambient, diffuse)
    ensures Channel(r, 3) == Channel(color, 3)
  {
    var b := PhongByte(ambient, diffuse);
    Pack(b, b, b, Channel(color, 3))
  }

  /** The byte loop of the Phong fragment, writing through a byte pointer into `color`. */
  method PhongWrite(ambient: int, diffuse: real, color: Pixel) returns (color': Pixel)
    ensures color' == PhongColor(ambient, diffuse, color)
  {
    var b := PhongByte(ambient, diffuse);
    color' := color;
    var i := 0;
    while i < 3
      invariant 0 <= i <= 3
      invariant forall k :: 0 <= k < i ==> Channel(color', k) == b
      invariant forall k :: i <= k < 4 ==> Channel(color', k) == Channel(color, k)
    {
      color' := WithChannel(color', i, b);
      i := i + 1;
    }
    ChannelsDetermine(color', PhongColor(ambient, diffuse, color));
  }

  // --------------------------------------------------------- fragment rules

  /** The four shaders that share the vertex stage. */
  datatype Kind = Flat | Posterize | Phong | Carcass

  /** The carcass shader's test: some weight is at most the threshold, so the pixel lies near an edge. */
  predicate NearEdge(b: Bary)
  {
    b.x <= THRESHOLD || b.y <= THRESHOLD || b.z <= THRESHOLD
  }

  /** The fragment stage of each shader: whether it discards, and the colour it leaves. */
  function Shade(kind: Kind, u: Uniforms, nrm: Mat, light: Vec, sqrt: real -> real, b: Bary, color: Pixel): (bool, Pixel)
    requires UniformsOk(u) && IsMat(nrm, 3, 3) && |light| == 3
  {
    match kind
    case Flat => (false, FLAT_COLOR)
    case Posterize => (false, PosterColor(u.colors, Diffuse(u, nrm, light, sqrt, b)))
    case Phong => (false, PhongColor(u.ambient, Diffuse(u, nrm, light, sqrt, b), color))
    case Carcass => if NearEdge(b) then (false, EDGE_COLOR) else (true, color)
  }

  /** A shader's fragment stage as draw_shaded_triangle calls it. */
  function FragmentOf(kind: Kind, u: Uniforms, nrm: Mat, light: Vec, sqrt: real -> real): Fragment<Pixel>
    requires UniformsOk(u) && IsMat(nrm, 3, 3) && |light| == 3
  {
    (b: Bary, c: Pixel) => Shade(kind, u, nrm, light, sqrt, b, c)
  }

  /**
   * The colours each shader's fragment stage can leave: the flat colour; a
   * palette colour or EDGE_COLOR; a grey (red, green and blue bytes equal);
   * EDGE_COLOR.
   */
  predicate ShaderColor(kind: Kind, u: Uniforms, c: Pixel)
  {
    match kind
    case Flat => c == FLAT_COLOR
    case Posterize => c == EDGE_COLOR || exists k :: 0 <= k < |u.colors| && c == u.colors[k].color
    case Phong => Channel(c, 0) == Channel(c, 1) && Channel(c, 1) == Channel(c, 2)
    case Carcass => c == EDGE_COLOR
  }

  /** What a shader may leave at a pixel with weights b: one of its colours, and only near an edge for the carcass shader. */
  function PaintOk(kind: Kind, u: Uniforms): (Bary, Pixel) -> bool
  {
    (b: Bary, c: Pixel) => ShaderColor(kind, u, c) && (kind == Carcass ==> NearEdge(b))
  }

  /**
   * Every colour a fragment stage keeps is one of its shader's colours, and
   * the carcass shader keeps only pixels near an edge; the other three
   * shaders never discard.
   */
  lemma ShadeKeeps(kind: Kind, u: Uniforms, nrm: Mat, light: Vec, sqrt: real -> real)
    requires UniformsOk(u) && IsMat(nrm, 3, 3) && |light| == 3
    ensures Keeps(FragmentOf(kind, u, nrm, light, sqrt), PaintOk(kind, u))
    ensures kind != Carcass <==> NeverDiscards(FragmentOf(kind, u, nrm, light, sqrt))
  {
    var fragment := FragmentOf(kind, u, nrm, light, sqrt);
    forall b: Bary, c: Pixel | !fragment(b, c).0 ensures PaintOk(kind, u)(b, fragment(b, c).1) {
      var r := Shade(kind, u, nrm, light, sqrt, b, c);
      assert fragment(b, c) == r;
      if kind == Posterize {
        var d := Diffuse(u, nrm, light, sqrt, b);
        match Select(u.colors, d)
        case Some(i) => assert r.1 == u.colors[i].color;
        case None =>
      } else if kind == Phong {
        var d := Diffuse(u, nrm, light, sqrt, b);
        assert Channel(r.1, 0) == PhongByte(u.ambient, d) && Channel(r.1, 1) == PhongByte(u.ambient, d);
        assert Channel(r.1, 2) == PhongByte(u.ambient, d);
      }
      assert ShaderColor(kind, u, r.1);
    }
    if kind == Carcass {
      var inner := Bary(1.0 / 3.0, 1.0 / 3.0, 1.0 / 3.0);
      assert fragment(inner, 0).0;
    }
  }

  // ------------------------------------------------------ the vertex stage

  /** Viewport, Projection and ModelView, as main sets them up. */
  datatype Camera = Camera(viewport: Mat, projection: Mat, modelView: Mat)

  predicate CameraOk(cam: Camera)
  {
    IsMat(cam.viewport, 4, 4) && IsMat(cam.projection, 4, 4) && IsMat(cam.modelView, 4, 4)
  }

  /** A vertex in clip space: `Projection*ModelView*embed<4>(v)`, the product taken from the left. */
  function ClipPoint(cam: Camera, v: Vec): (r: Vec)
    requires CameraOk(cam)
    ensures |r| == 4
  {
    MatVecMul(MatMul(cam.projection, cam.modelView), Embed(v, 4, 1.0))
  }

  /** A vertex on the screen: `Viewport*Projection*ModelView*embed<4>(v)`, the product taken from the left. */
  function ScreenPoint(cam: Camera, v: Vec): (r: Vec)
    requires CameraOk(cam)
    ensures |r| == 4
  {
    MatVecMul(MatMul(MatMul(cam.viewport, cam.projection), cam.modelView), Embed(v, 4, 1.0))
  }

  /** Corner i of the face lists can be read: its three indices lie inside their lists, each naming a 3-vector. */
  predicate CornerReadable(l: Lists, i: int)
  {
    0 <= i < |l.faceVrtx| && i < |l.faceTex| && i < |l.faceNorm| &&
    0 <= l.faceVrtx[i] < |l.verts| && 0 <= l.faceTex[i] < |l.texCoords| && 0 <= l.faceNorm[i] < |l.normals| &&
    |l.verts[l.faceVrtx[i]]| == 3 && |l.texCoords[l.faceTex[i]]| == 3 && |l.normals[l.faceNorm[i]]| == 3
  }

  function CornerVertex(l: Lists, i: int): (v: Vec)
    requires CornerReadable(l, i)
    ensures |v| == 3
  {
    l.verts[l.faceVrtx[i]]
  }

  /** The row `vertex` writes into `varying_nrm`. */
  function CornerNormal(l: Lists, i: int): (n: Vec)
    requires CornerReadable(l, i)
    ensures |n| == 3
  {
    l.normals[l.faceNorm[i]]
  }

  /** The row `vertex` writes into `varying_uv`. */
  function CornerUv(l: Lists, i: int): (uv: Vec)
    requires CornerReadable(l, i)
    ensures |uv| == 2
  {
    Proj(l.texCoords[l.faceTex[i]], 2)
  }

  /** Corner i can go through the vertex stage: it is readable and both perspective divisions are by a non-zero w. */
  predicate CornerDrawable(l: Lists, cam: Camera, i: int)
  {
    CameraOk(cam) && CornerReadable(l, i) &&
    ClipPoint(cam, CornerVertex(l, i))[3] != 0.0 && ScreenPoint(cam, CornerVertex(l, i))[3] != 0.0
  }

  /** The row `vertex` writes into `varying_pos`: the clip-space point, divided by w, cut to three components. */
  function CornerPos(l: Lists, cam: Camera, i: int): (p: Vec)
    requires CornerDrawable(l, cam, i)
    ensures |p| == 3
  {
    Proj(WNormalized(ClipPoint(cam, CornerVertex(l, i))), 3)
  }

  /** What `vertex` returns: the screen point divided by w, so that its w is 1. */
  function ScreenCorner(l: Lists, cam: Camera, i: int): (p: Vec)
    requires CornerDrawable(l, cam, i)
    ensures |p| == 4 && p[3] == 1.0
  {
    WNormalized(ScreenPoint(cam, CornerVertex(l, i)))
  }

  /** A 3-by-c matrix of zeros, as a value-initialised `mat<3,c>` is. */
  function Zeros(c: nat): (m: Mat)
    requires c >= 1
    ensures IsMat(m, 3, c)
  {
    seq(3, _ => seq(c, _ => 0.0))
  }

  /**
   * One of the four shaders. They share their fields and their vertex stage;
   * the flat shader ignores the uniforms, and only the posterization shader
   * reads the palette.
   */
  class Shader {
    const kind: Kind
    var uniformAmbient: int
    var uniformColors: Palette
    var uniformM: Mat
    var uniformMIT: Mat
    var varyingPos: Mat
    var varyingNrm: Mat
    var varyingUv: Mat

    predicate Valid()
      reads this
    {
      IsMat(uniformM, 4, 4) && IsMat(uniformMIT, 4, 4) &&
      IsMat(varyingPos, 3, 3) && IsMat(varyingNrm, 3, 3) && IsMat(varyingUv, 3, 2)
    }

    /** The uniforms, taken together. */
    function Settings(): Uniforms
      reads this
    {
      Uniforms(uniformAmbient, uniformColors, uniformM, uniformMIT)
    }

    /**
     * A shader with value-initialised varyings and the default palette,
     * followed by main's assignments of `uniform_M`, `uniform_M_IT` and
     * `uniform_ambient`.
     */
    constructor (kind: Kind, m: Mat, mIT: Mat, ambient: int)
      requires IsMat(m, 4, 4) && IsMat(mIT, 4, 4)
      ensures Valid() && this.kind == kind
      ensures Settings() == Uniforms(ambient, DefaultPalette(), m, mIT)
      ensures varyingPos == Zeros(3) && varyingNrm == Zeros(3) && varyingUv == Zeros(2)
    {
      this.kind := kind;
      uniformAmbient, uniformColors, uniformM, uniformMIT := ambient, DefaultPalette(), m, mIT;
      varyingPos, varyingNrm, varyingUv := Zeros(3), Zeros(3), Zeros(2);
    }

    /**
     * vertex(iface, k): overwrites row k of each varying matrix from the
     * mesh entries of corner iface + k and returns the corner on the screen.
     */
    method Vertex(mdl: Model, iface: int, k: nat, cam: Camera) returns (gl: Vec)
      requires Valid() && k < 3 && CornerDrawable(mdl.Contents(), cam, iface + k)
      modifies this
      ensures Valid() && Settings() == old(Settings())
      ensures varyingNrm == old(varyingNrm)[k := CornerNormal(mdl.Contents(), iface + k)]
      ensures varyingUv == old(varyingUv)[k := CornerUv(mdl.Contents(), iface + k)]
      ensures varyingPos == old(varyingPos)[k := CornerPos(mdl.Contents(), cam, iface + k)]
      ensures gl == ScreenCorner(mdl.Contents(), cam, iface + k)
    {
      varyingNrm := varyingNrm[k := mdl.normals[mdl.faceNorm[iface + k]]];
      varyingUv := varyingUv[k := Proj(mdl.texCoords[mdl.faceTex[iface + k]], 2)];
      var glVertex := Embed(mdl.verts[mdl.faceVrtx[iface + k]], 4, 1.0);
      varyingPos := varyingPos[k := Proj(WNormalized(MatVecMul(MatMul(cam.projection, cam.modelView), glVertex)), 3)];
      gl := WNormalized(MatVecMul(MatMul(MatMul(cam.viewport, cam.projection), cam.modelView), glVertex));
    }

    /**
     * fragment(bary, color): the rule of the shader's kind. The carcass
     * shader also computes a diffuse term near the edges, which it never
     * uses; the model leaves it out.
     */
    method Fragment(b: Bary, color: Pixel, light: Vec, sqrt: real -> real) returns (discard: bool, color': Pixel)
      requires Valid() && |light| == 3
      ensures (discard, color') == Shade(kind, Settings(), varyingNrm, light, sqrt, b, color)
    {
      match kind
      case Flat =>
        discard, color' := false, FLAT_COLOR;
      case Posterize =>
        var d := Diffuse(Settings(), varyingNrm, light, sqrt, b);
        discard, color' := PosterizeFragment(uniformColors, d);
      case Phong =>
        var d := Diffuse(Settings(), varyingNrm, light, sqrt, b);
        color' := PhongWrite(uniformAmbient, d, color);
        discard := false;
      case Carcass =>
        if NearEdge(b) {
          discard, color' := false, EDGE_COLOR;
        } else {
          discard, color' := true, color;
        }
    }
  }

  // --------------------------------------------------------- the render loop

  /** The three corners of the face starting at corner i can go through the vertex stage. */
  predicate CornersDrawable(l: Lists, cam: Camera, i: int)
  {
    CornerDrawable(l, cam, i) && CornerDrawable(l, cam, i + 1) && CornerDrawable(l, cam, i + 2)
  }

  /** The screen triangle of the face starting at corner i. */
  function FaceTriangle(l: Lists, cam: Camera, i: int): (tri: seq<Vec>)
    requires CornersDrawable(l, cam, i)
    ensures |tri| == 3
  {
    [ScreenCorner(l, cam, i), ScreenCorner(l, cam, i + 1), ScreenCorner(l, cam, i + 2)]
  }

  /** `varying_nrm` once the vertex stage has run on the three corners of the face starting at corner i. */
  function FaceNormals(l: Lists, i: int): (nrm: Mat)
    requires CornerReadable(l, i) && CornerReadable(l, i + 1) && CornerReadable(l, i + 2)
    ensures IsMat(nrm, 3, 3)
  {
    [CornerNormal(l, i), CornerNormal(l, i + 1), CornerNormal(l, i + 2)]
  }

  /** The face starting at corner i can be drawn: its corners pass the vertex stage and land inside the range of `int`. */
  predicate FaceDrawable(l: Lists, cam: Camera, i: int)
  {
    CornersDrawable(l, cam, i) && ScreenTriangle(FaceTriangle(l, cam, i))
  }

  /** Every face the loop of main visits can be drawn. */
  predicate AllFacesDrawable(l: Lists, cam: Camera)
  {
    forall i :: 0 <= i < |l.faceVrtx| && i % 3 == 0 ==> FaceDrawable(l, cam, i)
  }

  /** The faces the loop of main visits start at multiples of 3 below the length of the corner list. */
  lemma FaceAt(l: Lists, cam: Camera, i: int)
    requires AllFacesDrawable(l, cam) && 0 <= i < |l.faceVrtx| && i % 3 == 0
    ensures FaceDrawable(l, cam, i)
  {
  }

  /** What the render loop hands to draw_shaded_triangle for one face: its screen triangle and its `varying_nrm`. */
  datatype Face = Face(tri: seq<Vec>, nrm: Mat)

  /** Face f of the mesh, the one whose corners start at 3f. */
  function FaceOf(l: Lists, cam: Camera, f: int): (face: Face)
    requires AllFacesDrawable(l, cam) && 0 <= 3 * f < |l.faceVrtx|
    ensures ScreenTriangle(face.tri) && IsMat(face.nrm, 3, 3)
  {
    FaceAt(l, cam, 3 * f);
    Face(FaceTriangle(l, cam, 3 * f), FaceNormals(l, 3 * f))
  }

  /**
   * faces lists the first |faces| faces of the mesh, in the order the loop
   * visits them. The trigger keeps the faces from being computed where only
   * the list is needed.
   */
  predicate FacesPrefix(faces: seq<Face>, l: Lists, cam: Camera)
  {
    AllFacesDrawable(l, cam) && 3 * |faces| <= |l.faceVrtx| + 2 &&
    forall f {:trigger FaceOf(l, cam, f)} :: 0 <= f < |faces| ==> 3 * f < |l.faceVrtx| && faces[f] == FaceOf(l, cam, f)
  }

  /** Every face of the list can go through draw_shaded_triangle and the fragment stage. */
  predicate Drawable(faces: seq<Face>)
  {
    forall f :: 0 <= f < |faces| ==> ScreenTriangle(faces[f].tri) && IsMat(faces[f].nrm, 3, 3)
  }

  /** Appending the next face of the mesh extends the prefix by one. */
  lemma FacesPrefixGrow(faces: seq<Face>, l: Lists, cam: Camera)
    requires FacesPrefix(faces, l, cam) && Drawable(faces) && 3 * |faces| < |l.faceVrtx|
    ensures FacesPrefix(faces + [FaceOf(l, cam, |faces|)], l, cam)
    ensures Drawable(faces + [FaceOf(l, cam, |faces|)])
  {
    var next := faces + [FaceOf(l, cam, |faces|)];
    forall f | 0 <= f < |next|
      ensures 3 * f < |l.faceVrtx| && next[f] == FaceOf(l, cam, f)
    {
      if f < |faces| {
        assert next[f] == faces[f];
      }
    }
  }

  /**
   * The canvas and z-buffer after drawing the given faces in order: each
   * face is the walk of draw_shaded_triangle over its screen triangle, with
   * the fragment stage reading the normals of that face; color0(f) is the
   * value the uninitialised `color` of draw_shaded_triangle holds at face f.
   */
  function RenderFaces(st: Frame<Pixel>, faces: seq<Face>, kind: Kind, u: Uniforms, light: Vec, sqrt: real -> real,
                       width: nat, height: nat, color0: nat -> Pixel): (r: Frame<Pixel>)
    requires Drawable(faces) && UniformsOk(u) && |light| == 3
    requires width < UINT_RANGE && height < UINT_RANGE && Sized(st, width, height)
    ensures Sized(r, width, height)
    decreases |faces|
  {
    if |faces| == 0 then st
    else
      var n := |faces| - 1;
      var prev := RenderFaces(st, faces[..n], kind, u, light, sqrt, width, height, color0);
      Rasterize(Frame(prev.canvas, prev.depth, color0(n)), faces[n].tri,
                FragmentOf(kind, u, faces[n].nrm, light, sqrt), width, height)
  }

  /**
   * From a to b: no depth decreases, a canvas entry changes only together
   * with its depth, and every pixel whose depth changed holds one of the
   * shader's colours.
   */
  predicate Repainted(a: Frame<Pixel>, b: Frame<Pixel>, kind: Kind, u: Uniforms, width: nat, height: nat)
  {
    Sized(a, width, height) && Sized(b, width, height) &&
    (forall i :: 0 <= i < width * height ==> a.depth[i] <= b.depth[i]) &&
    (forall i :: 0 <= i < width * height && b.canvas[i] != a.canvas[i] ==> b.depth[i] != a.depth[i]) &&
    (forall i :: 0 <= i < width * height && b.depth[i] != a.depth[i] ==> ShaderColor(kind, u, b.canvas[i]))
  }

  /** A walk that paints only what the shader may leave repaints with the shader's colours. */
  lemma PaintedRepainted(a: Frame<Pixel>, b: Frame<Pixel>, tri: seq<Vec>, kind: Kind, u: Uniforms, width: nat, height: nat)
    requires ScreenTriangle(tri) && Painted(a, b, tri, PaintOk(kind, u), width, height)
    ensures Repainted(a, b, kind, u, width, height)
  {
    forall i | 0 <= i < width * height && b.depth[i] != a.depth[i] ensures ShaderColor(kind, u, b.canvas[i]) {
      IndexOnto(i, width, height);
      var px, py := i % width, i / width;
      assert b.depth[Index(px, py, width, height)] != a.depth[Index(px, py, width, height)];
    }
  }

  lemma RepaintedTrans(a: Frame<Pixel>, b: Frame<Pixel>, c: Frame<Pixel>, kind: Kind, u: Uniforms, width: nat, height: nat)
    requires Repainted(a, b, kind, u, width, height) && Repainted(b, c, kind, u, width, height)
    ensures Repainted(a, c, kind, u, width, height)
  {
    forall i | 0 <= i < width * height && c.depth[i] != a.depth[i] ensures ShaderColor(kind, u, c.canvas[i]) {
      if c.depth[i] == b.depth[i] {
        assert c.canvas[i] == b.canvas[i];
      }
    }
  }

  /**
   * Over the whole render: no depth decreases, a canvas entry changes only
   * where its depth changed, and every pixel whose depth changed holds one
   * of the shader's colours.
   */
  lemma {:induction false} RenderFacesPaints(st: Frame<Pixel>, faces: seq<Face>, kind: Kind, u: Uniforms, light: Vec,
                                             sqrt: real -> real, width: nat, height: nat, color0: nat -> Pixel)
    requires Drawable(faces) && UniformsOk(u) && |light| == 3
    requires width < UINT_RANGE && height < UINT_RANGE && Sized(st, width, height)
    ensures Repainted(st, RenderFaces(st, faces, kind, u, light, sqrt, width, height, color0), kind, u, width, height)
    decreases |faces|
  {
    if |faces| == 0 {
      assert RenderFaces(st, faces, kind, u, light, sqrt, width, height, color0) == st;
    } else {
      var n := |faces| - 1;
      var prev := RenderFaces(st, faces[..n], kind, u, light, sqrt, width, height, color0);
      RenderFacesPaints(st, faces[..n], kind, u, light, sqrt, width, height, color0);
      var before := Frame(prev.canvas, prev.depth, color0(n));
      ShadeKeeps(kind, u, faces[n].nrm, light, sqrt);
      RasterizePaints(before, faces[n].tri, FragmentOf(kind, u, faces[n].nrm, light, sqrt), PaintOk(kind, u), width, height);
      var next := Rasterize(before, faces[n].tri, FragmentOf(kind, u, faces[n].nrm, light, sqrt), width, height);
      PaintedRepainted(before, next, faces[n].tri, kind, u, width, height);
      RepaintedTrans(st, prev, next, kind, u, width, height);
    }
  }

  /** The z-test of each face in turn at pixel (px, py), starting from depth d. */
  function ZFold(faces: seq<Face>, width: nat, height: nat, px: int, py: int, d: real): (r: real)
    requires Drawable(faces) && width < UINT_RANGE && height < UINT_RANGE
    ensures r >= d
    decreases |faces|
  {
    if |faces| == 0 then d
    else
      var n := |faces| - 1;
      ZTest(faces[n].tri, width, height, px, py, ZFold(faces[..n], width, height, px, py, d))
  }

  /**
   * With any shader but the carcass shader, the z-buffer the render leaves
   * at each pixel is the z-test of every face in turn against the starting
   * depth: it does not depend on the shader or on the colours.
   */
  lemma {:induction false} RenderFacesDepth(st: Frame<Pixel>, faces: seq<Face>, kind: Kind, u: Uniforms, light: Vec,
                                            sqrt: real -> real, width: nat, height: nat, color0: nat -> Pixel, px: nat, py: nat)
    requires Drawable(faces) && UniformsOk(u) && |light| == 3 && kind != Carcass
    requires width < UINT_RANGE && height < UINT_RANGE && Sized(st, width, height) && px < width && py < height
    ensures var i := Index(px, py, width, height);
            RenderFaces(st, faces, kind, u, light, sqrt, width, height, color0).depth[i] ==
            ZFold(faces, width, height, px, py, st.depth[i])
    decreases |faces|
  {
    if |faces| > 0 {
      var n := |faces| - 1;
      var prev := RenderFaces(st, faces[..n], kind, u, light, sqrt, width, height, color0);
      RenderFacesDepth(st, faces[..n], kind, u, light, sqrt, width, height, color0, px, py);
      ShadeKeeps(kind, u, faces[n].nrm, light, sqrt);
      RasterizeDepth(Frame(prev.canvas, prev.depth, color0(n)), faces[n].tri,
                     FragmentOf(kind, u, faces[n].nrm, light, sqrt), width, height, px, py);
    }
  }

  /** The inner loop of main: the vertex stage on corners 0, 1 and 2 of the face starting at iface. */
  method VertexStage(shader: Shader, mdl: Model, iface: int, cam: Camera) returns (screen: seq<Vec>)
    requires shader.Valid() && CornersDrawable(mdl.Contents(), cam, iface)
    modifies shader
    ensures shader.Valid() && shader.Settings() == old(shader.Settings())
    ensures shader.varyingNrm == FaceNormals(mdl.Contents(), iface)
    ensures screen == FaceTriangle(mdl.Contents(), cam, iface)
  {
    ghost var tri, nrm := FaceTriangle(mdl.Contents(), cam, iface), FaceNormals(mdl.Contents(), iface);
    screen := [[0.0, 0.0, 0.0, 0.0], [0.0, 0.0, 0.0, 0.0], [0.0, 0.0, 0.0, 0.0]];
    var k := 0;
    while k < 3
      invariant 0 <= k <= 3 && |screen| == 3
      invariant shader.Valid() && shader.Settings() == old(shader.Settings())
      invariant forall j :: 0 <= j < k ==> shader.varyingNrm[j] == nrm[j] && screen[j] == tri[j]
    {
      var p := shader.Vertex(mdl, iface, k, cam);
      screen := screen[k := p];
      k := k + 1;
    }
  }

  /**
   * The body of the render loop for the face after those in `faces`, whose
   * corners start at iface: the vertex stage on its three corners, then
   * draw_shaded_triangle with the fragment stage of the shader. `next` is
   * the list with that face appended.
   */
  method ShadeFace(mdl: Model, shader: Shader, cam: Camera, light: Vec, sqrt: real -> real,
                   canvas: Image<Pixel>, zbuffer: Image<real>, color0: Pixel, ghost faces: seq<Face>, iface: int)
    returns (ghost next: seq<Face>)
    requires shader.Valid() && |light| == 3 && FacesPrefix(faces, mdl.Contents(), cam) && Drawable(faces)
    requires canvas.Valid() && zbuffer.Valid() && zbuffer.width == canvas.width && zbuffer.height == canvas.height
    requires canvas.data as object != zbuffer.data as object
    requires iface == 3 * |faces| && iface < |mdl.faceVrtx|
    modifies shader, canvas.data, zbuffer.data
    ensures shader.Valid() && shader.Settings() == old(shader.Settings())
    ensures |next| == |faces| + 1 && next[..|faces|] == faces && FacesPrefix(next, mdl.Contents(), cam) && Drawable(next)
    ensures var r := Rasterize(Frame(old(canvas.data[..]), old(zbuffer.data[..]), color0), next[|faces|].tri,
                               FragmentOf(shader.kind, shader.Settings(), next[|faces|].nrm, light, sqrt), canvas.width, canvas.height);
            canvas.data[..] == r.canvas && zbuffer.data[..] == r.depth
  {
    ghost var l := mdl.Contents();
    FaceAt(l, cam, iface);
    FacesPrefixGrow(faces, l, cam);
    next := faces + [FaceOf(l, cam, |faces|)];
    assert next[..|faces|] == faces;
    var screen := VertexStage(shader, mdl, iface, cam);
    DrawShadedTriangle(screen, FragmentOf(shader.kind, shader.Settings(), shader.varyingNrm, light, sqrt),
                       canvas, zbuffer, color0);
  }

  /**
   * One pass of the render loop: face |faces| of the mesh is drawn over the
   * canvas and z-buffer the faces before it left, and joins the list.
   */
  method RenderFace(mdl: Model, shader: Shader, cam: Camera, light: Vec, sqrt: real -> real,
                    canvas: Image<Pixel>, zbuffer: Image<real>, color0: nat -> Pixel,
                    ghost st0: Frame<Pixel>, ghost faces: seq<Face>, iface: int) returns (ghost next: seq<Face>)
    requires shader.Valid() && |light| == 3
    requires canvas.Valid() && zbuffer.Valid() && zbuffer.width == canvas.width && zbuffer.height == canvas.height
    requires canvas.data as object != zbuffer.data as object
    requires FacesPrefix(faces, mdl.Contents(), cam) && Drawable(faces)
    requires iface == 3 * |faces| && iface < |mdl.faceVrtx| && Sized(st0, canvas.width, canvas.height)
    requires var r := RenderFaces(st0, faces, shader.kind, shader.Settings(), light, sqrt, canvas.width, canvas.height, color0);
             canvas.data[..] == r.canvas && zbuffer.data[..] == r.depth
    modifies shader, canvas.data, zbuffer.data
    ensures shader.Valid() && shader.Settings() == old(shader.Settings())
    ensures |next| == |faces| + 1 && next[..|faces|] == faces && FacesPrefix(next, mdl.Contents(), cam) && Drawable(next)
    ensures var r := RenderFaces(st0, next, shader.kind, shader.Settings(), light, sqrt, canvas.width, canvas.height, color0);
            canvas.data[..] == r.canvas && zbuffer.data[..] == r.depth
  {
    next := ShadeFace(mdl, shader, cam, light, sqrt, canvas, zbuffer, color0(iface / 3), faces, iface);
  }

  /**
   * The render loop of main: `iface` steps by 3 over the corner list, and
   * each face is one RenderFace. The canvas and z-buffer end as drawing all
   * ceil(|face_vrtx| / 3) faces of the mesh in order leaves them; `faces`
   * names those faces.
   */
  method RenderModel(mdl: Model, shader: Shader, cam: Camera, light: Vec, sqrt: real -> real,
                     canvas: Image<Pixel>, zbuffer: Image<real>, color0: nat -> Pixel) returns (ghost faces: seq<Face>)
    requires shader.Valid() && |light| == 3 && AllFacesDrawable(mdl.Contents(), cam)
    requires canvas.Valid() && zbuffer.Valid() && zbuffer.width == canvas.width && zbuffer.height == canvas.height
    requires canvas.data as object != zbuffer.data as object
    modifies shader, canvas.data, zbuffer.data
    ensures FacesPrefix(faces, mdl.Contents(), cam) && |faces| == (|mdl.faceVrtx| + 2) / 3 && Drawable(faces)
    ensures var r := RenderFaces(Frame(old(canvas.data[..]), old(zbuffer.data[..]), color0(0)), faces,
                                 shader.kind, old(shader.Settings()), light, sqrt, canvas.width, canvas.height, color0);
            canvas.data[..] == r.canvas && zbuffer.data[..] == r.depth
  {
    ghost var u := shader.Settings();
    ghost var st0 := Frame(canvas.data[..], zbuffer.data[..], color0(0));
    faces := [];
    var iface := 0;
    while iface < |mdl.faceVrtx|
      invariant iface == 3 * |faces| && FacesPrefix(faces, mdl.Contents(), cam) && Drawable(faces)
      invariant shader.Valid() && shader.Settings() == u && UniformsOk(u) && Sized(st0, canvas.width, canvas.height)
      invariant var r := RenderFaces(st0, faces, shader.kind, u, light, sqrt, canvas.width, canvas.height, color0);
                canvas.data[..] == r.canvas && zbuffer.data[..] == r.depth
    {
      faces := RenderFace(mdl, shader, cam, light, sqrt, canvas, zbuffer, color0, st0, faces, iface);
      iface := iface + 3;
    }
  }

  /** The scene set-up of main: the canvas filled with BACKGROUND_COLOR and the z-buffer with the lowest double. */
  method ClearScene(canvas: Image<Pixel>, zbuffer: Image<real>, lowest: real)
    requires canvas.Valid() && zbuffer.Valid() && canvas.data as object != zbuffer.data as object
    modifies canvas.data, zbuffer.data
    ensures forall i :: 0 <= i < canvas.data.Length ==> canvas.data[i] == BACKGROUND
    ensures forall i :: 0 <= i < zbuffer.data.Length ==> zbuffer.data[i] == lowest
  {
    ImgFill(canvas, BACKGROUND);
    ImgFill(zbuffer, lowest);
  }
}
