// The helpers of renderer.cpp: colour-channel arithmetic, clamping, the
// camera / projection / viewport matrices and the barycentric solve.

module RenderHelpers {
  import opened Numeric
  import opened Pixels
  import opened MatVec

  // ------------------------------------------------------------ colour bytes

  /** The colour with fn applied to each of its red, green and blue bytes; alpha is kept. */
  function MapRgb(color: Pixel, fn: Byte -> Byte): (r: Pixel)
    ensures forall k :: 0 <= k < 3 ==> Channel(r, k) == fn(Channel(color, k))
    ensures Channel(r, 3) == Channel(color, 3)
  {
    Pack(fn(Channel(color, 0)), fn(Channel(color, 1)), fn(Channel(color, 2)), Channel(color, 3))
  }

  /**
   * modify_channels: rewrites bytes 0-2 of a local copy in place, then returns
   * only byte 0 of the result, zero-extended, instead of the whole colour.
   */
  method ModifyChannels(color: Pixel, fn: Byte -> Byte) returns (r: Pixel)
    ensures r == Channel(MapRgb(color, fn), 0) as Pixel
    ensures r == fn(Channel(color, 0)) as Pixel
  {
    var c := color;
    PackChannels(color);
    for i := 0 to 3
      invariant c == MapFirst(color, fn, i)
    {
      MapFirstStep(color, fn, i);
      c := WithChannel(c, i, fn(Channel(c, i)));
    }
    r := Channel(c, 0) as Pixel;
  }

  /** color with fn applied to its first n bytes. */
  function MapFirst(color: Pixel, fn: Byte -> Byte, n: nat): Pixel
  {
    Pack(if 0 < n then fn(Channel(color, 0)) else Channel(color, 0),
         if 1 < n then fn(Channel(color, 1)) else Channel(color, 1),
         if 2 < n then fn(Channel(color, 2)) else Channel(color, 2),
         Channel(color, 3))
  }

  lemma MapFirstStep(color: Pixel, fn: Byte -> Byte, i: nat)
    requires i < 3
    ensures var c := MapFirst(color, fn, i);
            WithChannel(c, i, fn(Channel(c, i))) == MapFirst(color, fn, i + 1)
  {
    var c := MapFirst(color, fn, i);
    ChannelsDetermine(WithChannel(c, i, fn(Channel(c, i))), MapFirst(color, fn, i + 1));
  }

  /** With the identity as fn, modify_channels loses green, blue and alpha. */
  lemma ModifyChannelsDropsBytes()
    ensures MapRgb(0xffa0b0c0, b => b) == 0xffa0b0c0
    ensures Channel(MapRgb(0xffa0b0c0, b => b), 0) as Pixel == 0xc0
  {
    ChannelsDetermine(MapRgb(0xffa0b0c0, b => b), 0xffa0b0c0);
  }

  /** Channel k of the colour times the scale, as a double. */
  function Product(color: Pixel, k: nat, scale: real): real
    requires k < 3
  {
    scale * ByteValue(Channel(color, k)) as real
  }

  /** The source asserts scale >= 0; the conversions to uint32 are defined only below 2^32. */
  predicate ColorMultDefined(color: Pixel, scale: real)
  {
    scale >= 0.0 && Product(color, 0, scale) < UINT_RANGE as real &&
    Product(color, 1, scale) < UINT_RANGE as real && Product(color, 2, scale) < UINT_RANGE as real
  }

  /** Channel k times the scale, converted to `std::uint32_t`. */
  function ScaledChannel(color: Pixel, k: nat, scale: real): (t: nat)
    requires k < 3 && ColorMultDefined(color, scale)
    ensures t < UINT_RANGE
    ensures t as real <= Product(color, k, scale) < t as real + 1.0
  {
    var x := Product(color, k, scale);
    assert 0.0 <= x < UINT_RANGE as real by {
      assert scale >= 0.0 && ByteValue(Channel(color, k)) as real >= 0.0;
    }
    Trunc(x)
  }

  /**
   * color_mult as written: each truncated product is shifted into place in
   * 32-bit arithmetic and only then capped at 255 << 8k, so a green product
   * of 2^24 or more, or a blue one of 2^16 or more, wraps before the cap.
   * Alpha is always 0xff.
   */
  function ColorMult(color: Pixel, scale: real): (r: Pixel)
    requires ColorMultDefined(color, scale)
    ensures ByteValue(Channel(r, 0)) == Min(ScaledChannel(color, 0, scale), 255)
    ensures ByteValue(Channel(r, 1)) == Min(ScaledChannel(color, 1, scale) % 0x100_0000, 255)
    ensures ByteValue(Channel(r, 2)) == Min(ScaledChannel(color, 2, scale) % 0x1_0000, 255)
    ensures Channel(r, 3) == 0xff
  {
    var t0, t1, t2 := ScaledChannel(color, 0, scale), ScaledChannel(color, 1, scale), ScaledChannel(color, 2, scale);
    // the red product is shifted by 0 and cannot wrap
    var red := Min(t0, 255);
    var green := Min((t1 * 0x100) % UINT_RANGE, 255 * 0x100);
    var blue := Min((t2 * 0x1_0000) % UINT_RANGE, 255 * 0x1_0000);
    GreenCap(t1);
    BlueCap(t2);
    PackedSum(t0, t1 % 0x100_0000, t2 % 0x1_0000);
    FromUint(0xff00_0000 + red + green + blue)
  }

  /** Shifting left by 8 in 32-bit arithmetic, then capping at 255 << 8, caps the value modulo 2^24. */
  lemma GreenCap(t: nat)
    ensures Min((t * 0x100) % UINT_RANGE, 255 * 0x100) == Min(t % 0x100_0000, 255) * 0x100
  {
    var q, s := t / 0x100_0000, t % 0x100_0000;
    assert t * 0x100 == q * UINT_RANGE + s * 0x100;
    assert (t * 0x100) % UINT_RANGE == s * 0x100;
  }

  /** Shifting left by 16 in 32-bit arithmetic, then capping at 255 << 16, caps the value modulo 2^16. */
  lemma BlueCap(t: nat)
    ensures Min((t * 0x1_0000) % UINT_RANGE, 255 * 0x1_0000) == Min(t % 0x1_0000, 255) * 0x1_0000
  {
    var q, s := t / 0x1_0000, t % 0x1_0000;
    assert t * 0x1_0000 == q * UINT_RANGE + s * 0x1_0000;
    assert (t * 0x1_0000) % UINT_RANGE == s * 0x1_0000;
  }

  /** The bytes of 0xff000000 + a + (b << 8) + (c << 16) when each of a, b, c is capped at 255. */
  lemma PackedSum(a: nat, b: nat, c: nat)
    ensures var n := 0xff00_0000 + Min(a, 255) + Min(b, 255) * 0x100 + Min(c, 255) * 0x1_0000;
            n < UINT_RANGE && n % 256 == Min(a, 255) && (n / 0x100) % 256 == Min(b, 255) &&
            (n / 0x1_0000) % 256 == Min(c, 255) && (n / 0x100_0000) % 256 == 255
  {
  }

  /**
   * The evident intent of color_mult ("limits it from above to 255 in each
   * channel"): every channel is the truncated product, capped at 255.
   */
  function ColorMultSaturating(color: Pixel, scale: real): (r: Pixel)
    requires ColorMultDefined(color, scale)
    ensures forall k :: 0 <= k < 3 ==> ByteValue(Channel(r, k)) == Min(ScaledChannel(color, k, scale), 255)
    ensures Channel(r, 3) == 0xff
  {
    FromValues(Min(ScaledChannel(color, 0, scale), 255), Min(ScaledChannel(color, 1, scale), 255),
               Min(ScaledChannel(color, 2, scale), 255), 255)
  }

  /** The two agree as long as no product reaches the wrap-around. */
  lemma ColorMultAgreesBelowWrap(color: Pixel, scale: real)
    requires ColorMultDefined(color, scale)
    requires ScaledChannel(color, 1, scale) < 0x100_0000 && ScaledChannel(color, 2, scale) < 0x1_0000
    ensures ColorMult(color, scale) == ColorMultSaturating(color, scale)
  {
    var t1, t2 := ScaledChannel(color, 1, scale), ScaledChannel(color, 2, scale);
    assert t1 % 0x100_0000 == t1 && t2 % 0x1_0000 == t2;
    var r, s := ColorMult(color, scale), ColorMultSaturating(color, scale);
    assert ByteValue(Channel(r, 1)) == Min(t1, 255) == ByteValue(Channel(s, 1));
    assert ByteValue(Channel(r, 2)) == Min(t2, 255) == ByteValue(Channel(s, 2));
    SameChannels(r, s);
  }

  /** Two colours whose red, green and blue values agree and whose alpha bytes agree are equal. */
  lemma SameChannels(c: Pixel, d: Pixel)
    requires ByteValue(Channel(c, 0)) == ByteValue(Channel(d, 0))
    requires ByteValue(Channel(c, 1)) == ByteValue(Channel(d, 1))
    requires ByteValue(Channel(c, 2)) == ByteValue(Channel(d, 2))
    requires Channel(c, 3) == Channel(d, 3)
    ensures c == d
  {
    ByteValueInjective(Channel(c, 0), Channel(d, 0));
    ByteValueInjective(Channel(c, 1), Channel(d, 1));
    ByteValueInjective(Channel(c, 2), Channel(d, 2));
    ChannelsDetermine(c, d);
  }

  lemma ByteValueInjective(a: Byte, b: Byte)
    requires ByteValue(a) == ByteValue(b)
    ensures a == b
  {
  }

  /** Full blue scaled by 258: the product 65790 wraps, and blue comes out as 254 instead of 255. */
  lemma ColorMultBlueWraps()
    ensures ColorMultDefined(0x00ff_0000, 258.0)
    ensures ByteValue(Channel(ColorMult(0x00ff_0000, 258.0), 2)) == 254
    ensures ByteValue(Channel(ColorMultSaturating(0x00ff_0000, 258.0), 2)) == 255
  {
    assert Channel(0x00ff_0000, 0) == 0 && Channel(0x00ff_0000, 1) == 0 && Channel(0x00ff_0000, 2) == 0xff;
    assert Product(0x00ff_0000, 2, 258.0) == 65790.0;
    assert ScaledChannel(0x00ff_0000, 2, 258.0) == 65790;
    assert 65790 % 0x1_0000 == 254;
  }

  /** Scaling by 1 keeps red, green and blue and makes the colour opaque. */
  lemma ColorMultByOne(color: Pixel)
    ensures ColorMultDefined(color, 1.0)
    ensures ColorMult(color, 1.0) == WithChannel(color, 3, 0xff)
  {
    ScaleByOne(color, 0);
    ScaleByOne(color, 1);
    ScaleByOne(color, 2);
    ColorMultAgreesBelowWrap(color, 1.0);
    var s, w := ColorMultSaturating(color, 1.0), WithChannel(color, 3, 0xff);
    assert ByteValue(Channel(s, 0)) == ByteValue(Channel(w, 0));
    assert ByteValue(Channel(s, 1)) == ByteValue(Channel(w, 1));
    assert ByteValue(Channel(s, 2)) == ByteValue(Channel(w, 2));
    SameChannels(s, w);
  }

  lemma ScaleByOne(color: Pixel, k: nat)
    requires k < 3
    ensures ColorMultDefined(color, 1.0) && ScaledChannel(color, k, 1.0) == ByteValue(Channel(color, k))
  {
    assert Product(color, 0, 1.0) == ByteValue(Channel(color, 0)) as real;
    assert Product(color, 1, 1.0) == ByteValue(Channel(color, 1)) as real;
    assert Product(color, 2, 1.0) == ByteValue(Channel(color, 2)) as real;
  }

  // ---------------------------------------------------------------- clamping

  /** clamp(low, val, high) = max(low, min(high, val)). */
  function Clamp(low: int, val: int, high: int): (r: int)
    ensures low <= high ==> low <= r <= high
    ensures low <= val <= high ==> r == val
    ensures val < low ==> r == low
    ensures low <= high < val ==> r == high
  {
    Max(low, Min(high, val))
  }

  /** clampf: the same on floats. */
  function ClampF(low: real, val: real, high: real): (r: real)
    ensures low <= high ==> low <= r <= high
    ensures low <= val <= high ==> r == val
    ensures val < low ==> r == low
    ensures low <= high < val ==> r == high
  {
    var m := if val < high then val else high;
    if low < m then m else low
  }

  // ---------------------------------------------------------------- matrices

  /** The camera frame of look_at: k from center to eye, i = up x k, j = k x i, each normalised. */
  predicate LookAtDefined(eye: Vec, center: Vec, up: Vec, sqrt: real -> real)
  {
    |eye| == 3 && |center| == 3 && |up| == 3 &&
    Norm(Sub(eye, center), sqrt) != 0.0 &&
    var k := Normalized(Sub(eye, center), sqrt);
    Norm(Cross(up, k), sqrt) != 0.0 &&
    var i := Normalized(Cross(up, k), sqrt);
    Norm(Cross(k, i), sqrt) != 0.0
  }

  function CameraK(eye: Vec, center: Vec, up: Vec, sqrt: real -> real): (k: Vec)
    requires LookAtDefined(eye, center, up, sqrt)
    ensures |k| == 3
  {
    Normalized(Sub(eye, center), sqrt)
  }

  function CameraI(eye: Vec, center: Vec, up: Vec, sqrt: real -> real): (i: Vec)
    requires LookAtDefined(eye, center, up, sqrt)
    ensures |i| == 3
  {
    Normalized(Cross(up, CameraK(eye, center, up, sqrt)), sqrt)
  }

  function CameraJ(eye: Vec, center: Vec, up: Vec, sqrt: real -> real): (j: Vec)
    requires LookAtDefined(eye, center, up, sqrt)
    ensures |j| == 3
  {
    var k := CameraK(eye, center, up, sqrt);
    Normalized(Cross(k, CameraI(eye, center, up, sqrt)), sqrt)
  }

  /** look_at: rows i, j, k, each followed by minus its dot product with center, then (0, 0, 0, 1). */
  function LookAt(eye: Vec, center: Vec, up: Vec, sqrt: real -> real): (m: Mat)
    requires LookAtDefined(eye, center, up, sqrt)
    ensures IsMat(m, 4, 4) && m[3] == [0.0, 0.0, 0.0, 1.0]
  {
    var i := CameraI(eye, center, up, sqrt);
    var j := CameraJ(eye, center, up, sqrt);
    var k := CameraK(eye, center, up, sqrt);
    [ [i[0], i[1], i[2], -Dot(center, i)],
      [j[0], j[1], j[2], -Dot(center, j)],
      [k[0], k[1], k[2], -Dot(center, k)],
      [0.0, 0.0, 0.0, 1.0] ]
  }

  /** A row whose last entry cancels its dot product with p's first three entries, applied to (p, 1). */
  lemma RowCancels(r: Vec, p: Vec)
    requires |r| == 4 && |p| == 4 && p[3] == 1.0
    requires r[3] == -(p[0] * r[0] + p[1] * r[1] + p[2] * r[2])
    ensures Dot(r, p) == 0.0
  {
    Dot4(r, p);
  }

  /**
   * look_at moves center, not eye, to the origin: the translation column
   * uses center, so the homogeneous centre point maps to (0, 0, 0, 1).
   */
  lemma LookAtCenterToOrigin(eye: Vec, center: Vec, up: Vec, sqrt: real -> real)
    requires LookAtDefined(eye, center, up, sqrt)
    ensures MatVecMul(LookAt(eye, center, up, sqrt), Embed(center, 4, 1.0)) == [0.0, 0.0, 0.0, 1.0]
  {
    var m := LookAt(eye, center, up, sqrt);
    var p := Embed(center, 4, 1.0);
    assert p == [center[0], center[1], center[2], 1.0];
    Dot3(center, CameraI(eye, center, up, sqrt));
    Dot3(center, CameraJ(eye, center, up, sqrt));
    Dot3(center, CameraK(eye, center, up, sqrt));
    RowCancels(m[0], p);
    RowCancels(m[1], p);
    RowCancels(m[2], p);
    Dot4(m[3], p);
    var r := MatVecMul(m, p);
    assert r[0] == 0.0 && r[1] == 0.0 && r[2] == 0.0 && r[3] == 1.0;
  }

  lemma Dot4(a: Vec, b: Vec)
    requires |a| == 4 && |b| == 4
    ensures Dot(a, b) == a[0] * b[0] + a[1] * b[1] + a[2] * b[2] + a[3] * b[3]
  {
    Dot3(a[1..], b[1..]);
  }

  /** The three camera axes are mutually orthogonal, whatever the square root returns. */
  lemma CameraAxesOrthogonal(eye: Vec, center: Vec, up: Vec, sqrt: real -> real)
    requires LookAtDefined(eye, center, up, sqrt)
    ensures Dot(CameraI(eye, center, up, sqrt), CameraK(eye, center, up, sqrt)) == 0.0
    ensures Dot(CameraJ(eye, center, up, sqrt), CameraK(eye, center, up, sqrt)) == 0.0
    ensures Dot(CameraJ(eye, center, up, sqrt), CameraI(eye, center, up, sqrt)) == 0.0
  {
    var k := CameraK(eye, center, up, sqrt);
    var i := CameraI(eye, center, up, sqrt);
    var j := CameraJ(eye, center, up, sqrt);
    CrossOrthogonal(up, k);
    DotDivLeft(Cross(up, k), Norm(Cross(up, k), sqrt), k);
    CrossOrthogonal(k, i);
    DotDivLeft(Cross(k, i), Norm(Cross(k, i), sqrt), k);
    DotDivLeft(Cross(k, i), Norm(Cross(k, i), sqrt), i);
  }

  /** get_viewport(x, y, w, h, d). */
  function Viewport(x: int, y: int, w: int, h: int, d: int): (m: Mat)
    ensures IsMat(m, 4, 4)
  {
    [ [w as real / 2.0, 0.0, 0.0, x as real + w as real / 2.0],
      [0.0, -(h as real) / 2.0, 0.0, y as real + h as real / 2.0],
      [0.0, 0.0, d as real / 2.0, d as real / 2.0],
      [0.0, 0.0, 0.0, 1.0] ]
  }

  /**
   * The viewport sends the cube [-1,1]^3 onto [x, x+w] x [y, y+h] x [0, d],
   * flipping y: a point (a, b, c, 1) goes to (x + w(a+1)/2, y + h(1-b)/2, d(c+1)/2, 1).
   */
  lemma ViewportMaps(x: int, y: int, w: int, h: int, d: int, a: real, b: real, c: real)
    ensures MatVecMul(Viewport(x, y, w, h, d), [a, b, c, 1.0]) ==
      [x as real + w as real * (a + 1.0) / 2.0, y as real + h as real * (1.0 - b) / 2.0,
       d as real * (c + 1.0) / 2.0, 1.0]
  {
    var m, p := Viewport(x, y, w, h, d), [a, b, c, 1.0];
    Dot4(m[0], p);
    Dot4(m[1], p);
    Dot4(m[2], p);
    Dot4(m[3], p);
    var r := MatVecMul(m, p);
    assert r[0] == x as real + w as real * (a + 1.0) / 2.0;
    assert r[1] == y as real + h as real * (1.0 - b) / 2.0;
    assert r[2] == d as real * (c + 1.0) / 2.0;
    assert r[3] == 1.0;
  }

  /** The corners named in the source's comment. */
  lemma ViewportCorners(x: int, y: int, w: int, h: int, d: int)
    ensures MatVecMul(Viewport(x, y, w, h, d), [-1.0, -1.0, -1.0, 1.0]) ==
      [x as real, y as real + h as real, 0.0, 1.0]
    ensures MatVecMul(Viewport(x, y, w, h, d), [1.0, 1.0, 1.0, 1.0]) ==
      [x as real + w as real, y as real, d as real, 1.0]
  {
    var lo, hi := MatVecMul(Viewport(x, y, w, h, d), [-1.0, -1.0, -1.0, 1.0]), MatVecMul(Viewport(x, y, w, h, d), [1.0, 1.0, 1.0, 1.0]);
    ViewportMaps(x, y, w, h, d, -1.0, -1.0, -1.0);
    assert lo[0] == x as real && lo[1] == y as real + h as real && lo[2] == 0.0 && lo[3] == 1.0;
    ViewportMaps(x, y, w, h, d, 1.0, 1.0, 1.0);
    assert hi[0] == x as real + w as real && hi[1] == y as real && hi[2] == d as real && hi[3] == 1.0;
  }

  /** get_projection(c); c = 0 would put an infinity into the matrix. */
  function Projection(c: real): (m: Mat)
    requires c != 0.0
    ensures IsMat(m, 4, 4)
  {
    [ [1.0, 0.0, 0.0, 0.0],
      [0.0, 1.0, 0.0, 0.0],
      [0.0, 0.0, 1.0, 0.0],
      [0.0, 0.0, -1.0 / c, 1.0] ]
  }

  /** The projection keeps x, y and z and lowers w by z / c. */
  lemma ProjectionMaps(c: real, v: Vec)
    requires c != 0.0 && |v| == 4
    ensures MatVecMul(Projection(c), v) == [v[0], v[1], v[2], v[3] - v[2] / c]
  {
    var m := Projection(c);
    Dot4(m[0], v);
    Dot4(m[1], v);
    Dot4(m[2], v);
    Dot4(m[3], v);
    var r := MatVecMul(m, v);
    assert r[0] == v[0] && r[1] == v[1] && r[2] == v[2] && r[3] == v[3] - v[2] / c;
  }

  // ------------------------------------------------------------- barycentric

  /** The three barycentric weights of a screen point (`barycords.x`, `.y`, `.z`). */
  datatype Bary = Bary(x: real, y: real, z: real)
  {
    /** The point lies in the closed triangle: no weight is negative. */
    predicate Inside()
    {
      x >= 0.0 && y >= 0.0 && z >= 0.0
    }

    /** Weights applied to one value per vertex. */
    function Mix(a: real, b: real, c: real): real
    {
      x * a + y * b + z * c
    }
  }

  /** det_T of get_barycentric: twice the signed area of the screen triangle. */
  function BaryDet(v: seq<Vec>): real
    requires |v| == 3 && forall k :: 0 <= k < 3 ==> |v[k]| >= 2
  {
    (v[1][1] - v[2][1]) * (v[0][0] - v[2][0]) + (v[2][0] - v[1][0]) * (v[0][1] - v[2][1])
  }

  /**
   * get_barycentric (both overloads; only x and y of each vertex are read):
   * the weights of integer point (px, py) relative to a non-degenerate
   * triangle, through the inverse of the 2x2 edge matrix.
   */
  function Barycentric(v: seq<Vec>, px: int, py: int): (r: Bary)
    requires |v| == 3 && forall k :: 0 <= k < 3 ==> |v[k]| >= 2
    requires BaryDet(v) != 0.0
    ensures r.x + r.y + r.z == 1.0
  {
    var x0, y0, x1, y1, x2, y2 := v[0][0], v[0][1], v[1][0], v[1][1], v[2][0], v[2][1];
    var r0 := Weight0(x0, y0, x1, y1, x2, y2, px as real, py as real);
    var r1 := Weight1(x0, y0, x1, y1, x2, y2, px as real, py as real);
    Bary(r0, r1, 1.0 - r0 - r1)
  }

  /**
   * Row 0 of the inverse of the edge matrix T (rows (y1 - y2, x2 - x1) and
   * (y2 - y0, x0 - x2), over det_T) applied to P - v2.
   */
  function Weight0(x0: real, y0: real, x1: real, y1: real, x2: real, y2: real, px: real, py: real): real
    requires (y1 - y2) * (x0 - x2) + (x2 - x1) * (y0 - y2) != 0.0
  {
    var det := (y1 - y2) * (x0 - x2) + (x2 - x1) * (y0 - y2);
    ((y1 - y2) / det) * (px - x2) + ((x2 - x1) / det) * (py - y2)
  }

  /** Row 1 of the same inverse applied to P - v2. */
  function Weight1(x0: real, y0: real, x1: real, y1: real, x2: real, y2: real, px: real, py: real): real
    requires (y1 - y2) * (x0 - x2) + (x2 - x1) * (y0 - y2) != 0.0
  {
    var det := (y1 - y2) * (x0 - x2) + (x2 - x1) * (y0 - y2);
    ((y2 - y0) / det) * (px - x2) + ((x0 - x2) / det) * (py - y2)
  }

  lemma DivSum(a: real, b: real, p: real, q: real, d: real)
    requires d != 0.0
    ensures (a / d) * p + (b / d) * q == (a * p + b * q) / d
  {
  }

  /** Solving the 2x2 system: the weights times the edge vectors give the offset from vertex 2. */
  lemma Solve2(ux: real, uy: real, wx: real, wy: real, qx: real, qy: real)
    requires wy * ux - wx * uy != 0.0
    ensures var det := wy * ux - wx * uy;
            ((wy * qx - wx * qy) / det) * ux + ((ux * qy - uy * qx) / det) * wx == qx &&
            ((wy * qx - wx * qy) / det) * uy + ((ux * qy - uy * qx) / det) * wy == qy
  {
    var det := wy * ux - wx * uy;
    var n0, n1 := wy * qx - wx * qy, ux * qy - uy * qx;
    assert n0 * ux + n1 * wx == qx * det;
    assert n0 * uy + n1 * wy == qy * det;
    DivSum(n0, n1, ux, wx, det);
    DivSum(n0, n1, uy, wy, det);
  }

  /** The first weight as a quotient over the edge vectors u = v0 - v2, w = v1 - v2 and q = P - v2. */
  lemma Weight0Form(x0: real, y0: real, x1: real, y1: real, x2: real, y2: real, px: real, py: real)
    requires (y1 - y2) * (x0 - x2) + (x2 - x1) * (y0 - y2) != 0.0
    ensures var ux, uy, wx, wy, qx, qy := x0 - x2, y0 - y2, x1 - x2, y1 - y2, px - x2, py - y2;
            wy * ux - wx * uy != 0.0 &&
            Weight0(x0, y0, x1, y1, x2, y2, px, py) == (wy * qx - wx * qy) / (wy * ux - wx * uy)
  {
    var det := (y1 - y2) * (x0 - x2) + (x2 - x1) * (y0 - y2);
    DivSum(y1 - y2, x2 - x1, px - x2, py - y2, det);
  }

  /** The second weight as a quotient over the same edge vectors. */
  lemma Weight1Form(x0: real, y0: real, x1: real, y1: real, x2: real, y2: real, px: real, py: real)
    requires (y1 - y2) * (x0 - x2) + (x2 - x1) * (y0 - y2) != 0.0
    ensures var ux, uy, wx, wy, qx, qy := x0 - x2, y0 - y2, x1 - x2, y1 - y2, px - x2, py - y2;
            wy * ux - wx * uy != 0.0 &&
            Weight1(x0, y0, x1, y1, x2, y2, px, py) == (ux * qy - uy * qx) / (wy * ux - wx * uy)
  {
    var det := (y1 - y2) * (x0 - x2) + (x2 - x1) * (y0 - y2);
    DivSum(y2 - y0, x0 - x2, px - x2, py - y2, det);
  }

  /** The weights reproduce the point they were computed for, coordinate by coordinate. */
  lemma WeightsReconstruct(x0: real, y0: real, x1: real, y1: real, x2: real, y2: real, px: real, py: real)
    requires (y1 - y2) * (x0 - x2) + (x2 - x1) * (y0 - y2) != 0.0
    ensures var r0, r1 := Weight0(x0, y0, x1, y1, x2, y2, px, py), Weight1(x0, y0, x1, y1, x2, y2, px, py);
            r0 * x0 + r1 * x1 + (1.0 - r0 - r1) * x2 == px &&
            r0 * y0 + r1 * y1 + (1.0 - r0 - r1) * y2 == py
  {
    var r0, r1 := Weight0(x0, y0, x1, y1, x2, y2, px, py), Weight1(x0, y0, x1, y1, x2, y2, px, py);
    Weight0Form(x0, y0, x1, y1, x2, y2, px, py);
    Weight1Form(x0, y0, x1, y1, x2, y2, px, py);
    Solve2(x0 - x2, y0 - y2, x1 - x2, y1 - y2, px - x2, py - y2);
    AroundVertex2(r0, r1, x0, x1, x2);
    AroundVertex2(r0, r1, y0, y1, y2);
  }

  /** An affine combination of three values, seen from the third. */
  lemma AroundVertex2(r0: real, r1: real, a: real, b: real, c: real)
    ensures r0 * a + r1 * b + (1.0 - r0 - r1) * c == c + r0 * (a - c) + r1 * (b - c)
  {
  }

  /** The barycentric weights reproduce the point: the weighted sum of the vertices is P. */
  lemma BarycentricReconstructs(v: seq<Vec>, px: int, py: int)
    requires |v| == 3 && forall k :: 0 <= k < 3 ==> |v[k]| >= 2
    requires BaryDet(v) != 0.0
    ensures var r := Barycentric(v, px, py);
            r.Mix(v[0][0], v[1][0], v[2][0]) == px as real &&
            r.Mix(v[0][1], v[1][1], v[2][1]) == py as real
  {
    var x0, y0, x1, y1, x2, y2 := v[0][0], v[0][1], v[1][0], v[1][1], v[2][0], v[2][1];
    var r := Barycentric(v, px, py);
    WeightsReconstruct(x0, y0, x1, y1, x2, y2, px as real, py as real);
    MixAffine(r, x0, x1, x2);
    MixAffine(r, y0, y1, y2);
  }

  lemma MixAffine(r: Bary, a: real, b: real, c: real)
    requires r.z == 1.0 - r.x - r.y
    ensures r.Mix(a, b, c) == r.x * a + r.y * b + (1.0 - r.x - r.y) * c
  {
  }

  /** The weights at the vertices themselves. */
  lemma WeightsAtCorners(x0: real, y0: real, x1: real, y1: real, x2: real, y2: real)
    requires (y1 - y2) * (x0 - x2) + (x2 - x1) * (y0 - y2) != 0.0
    ensures Weight0(x0, y0, x1, y1, x2, y2, x0, y0) == 1.0 && Weight1(x0, y0, x1, y1, x2, y2, x0, y0) == 0.0
    ensures Weight0(x0, y0, x1, y1, x2, y2, x1, y1) == 0.0 && Weight1(x0, y0, x1, y1, x2, y2, x1, y1) == 1.0
    ensures Weight0(x0, y0, x1, y1, x2, y2, x2, y2) == 0.0 && Weight1(x0, y0, x1, y1, x2, y2, x2, y2) == 0.0
  {
    var ux, uy, wx, wy := x0 - x2, y0 - y2, x1 - x2, y1 - y2;
    Weight0Form(x0, y0, x1, y1, x2, y2, x0, y0);
    Weight1Form(x0, y0, x1, y1, x2, y2, x0, y0);
    Weight0Form(x0, y0, x1, y1, x2, y2, x1, y1);
    Weight1Form(x0, y0, x1, y1, x2, y2, x1, y1);
    Weight0Form(x0, y0, x1, y1, x2, y2, x2, y2);
    Weight1Form(x0, y0, x1, y1, x2, y2, x2, y2);
    QuotientValues(wy * ux - wx * uy, ux * uy - uy * ux, wy * wx - wx * wy);
  }

  lemma QuotientValues(d: real, z0: real, z1: real)
    requires d != 0.0 && z0 == 0.0 && z1 == 0.0
    ensures d / d == 1.0 && z0 / d == 0.0 && z1 / d == 0.0 && (0.0 * 0.0 - 0.0 * 0.0) / d == 0.0
  {
  }

  /** At a vertex with integer screen coordinates the weights are the matching unit vector. */
  lemma BarycentricCorners(v: seq<Vec>, k: nat)
    requires |v| == 3 && forall j :: 0 <= j < 3 ==> |v[j]| >= 2
    requires BaryDet(v) != 0.0 && k < 3
    requires v[k][0] == v[k][0].Floor as real && v[k][1] == v[k][1].Floor as real
    ensures Barycentric(v, v[k][0].Floor, v[k][1].Floor) ==
      Bary(if k == 0 then 1.0 else 0.0, if k == 1 then 1.0 else 0.0, if k == 2 then 1.0 else 0.0)
  {
    var x0, y0, x1, y1, x2, y2 := v[0][0], v[0][1], v[1][0], v[1][1], v[2][0], v[2][1];
    var px, py := v[k][0].Floor, v[k][1].Floor;
    WeightsAtCorners(x0, y0, x1, y1, x2, y2);
  }
}
