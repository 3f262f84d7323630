// The mesh of model.h: vertex, texture-coordinate and normal lists, the
// three index lists of the faces, and the texture, normal and specular maps
// with their clamped texel lookups.

module Mesh {
  import opened Numeric
  import opened Pixels
  import opened MatVec
  import opened Raster

  /** The six lists of a model, as the parser fills them. */
  datatype Lists = Lists(verts: seq<Vec>, texCoords: seq<Vec>, normals: seq<Vec>,
                         faceVrtx: seq<int>, faceTex: seq<int>, faceNorm: seq<int>)

  /**
   * Model. The lists are filled by the OBJ parser; the maps are the images
   * main points the model at before rendering.
   */
  class Model {
    var verts: seq<Vec>
    var texCoords: seq<Vec>
    var normals: seq<Vec>
    /** Three entries per face: the 0-based vertex index of each corner. */
    var faceVrtx: seq<int>
    var faceTex: seq<int>
    var faceNorm: seq<int>
    var textureMap: Image<Pixel>
    var normalMap: Image<Pixel>
    var specularMap: Image<Pixel>

    /** A model with empty lists, reading its texels from the three given maps. */
    constructor (texture: Image<Pixel>, normal: Image<Pixel>, specular: Image<Pixel>)
      ensures verts == [] && texCoords == [] && normals == []
      ensures faceVrtx == [] && faceTex == [] && faceNorm == []
      ensures textureMap == texture && normalMap == normal && specularMap == specular
    {
      verts, texCoords, normals := [], [], [];
      faceVrtx, faceTex, faceNorm := [], [], [];
      textureMap, normalMap, specularMap := texture, normal, specular;
    }

    /** The lists, taken together. */
    function Contents(): Lists
      reads this
    {
      Lists(verts, texCoords, normals, faceVrtx, faceTex, faceNorm)
    }

    /** nverts: the length of the vertex list, as an `int`. */
    function NVerts(): (n: int)
      reads this
      ensures |verts| <= INT_MAX ==> n == |verts|
      ensures INT_MIN <= n <= INT_MAX
    {
      SizeToInt(|verts|)
    }

    /** nfaces: the length of the corner list divided by three, rounded down, as an `int`. */
    function NFaces(): (n: int)
      reads this
      ensures |faceVrtx| <= INT_MAX ==> 0 <= n && 3 * n <= |faceVrtx| < 3 * n + 3
      ensures INT_MIN <= n <= INT_MAX
    {
      SizeToInt(|faceVrtx| / 3)
    }

    /** get_texture: the texture texel under uv, or pixel_T() when the clamped lookup misses the map. */
    function GetTexture(uv: Vec): (c: Pixel)
      requires |uv| >= 2 && textureMap.Valid() && LookupDefined(textureMap, uv)
      reads this, textureMap, textureMap.data
    {
      textureMap.GetPixel(TexelColumn(textureMap.width, uv[0]), TexelRow(textureMap.height, uv[1]))
    }

    /** get_normal: the normal-map texel under uv, its red, green and blue bytes decoded into x, y and z. */
    function GetNormal(uv: Vec): (n: Vec)
      requires |uv| >= 2 && normalMap.Valid() && LookupDefined(normalMap, uv)
      reads this, normalMap, normalMap.data
      ensures |n| == 3 && forall k :: 0 <= k < 3 ==> -1.0 <= n[k] <= 1.0
    {
      var c := normalMap.GetPixel(TexelColumn(normalMap.width, uv[0]), TexelRow(normalMap.height, uv[1]));
      [DecodeComponent(Channel(c, 0)), DecodeComponent(Channel(c, 1)), DecodeComponent(Channel(c, 2))]
    }

    /** get_specular: the specular texel under uv narrowed to `uint8_t`, which keeps its value modulo 256. */
    function GetSpecular(uv: Vec): (e: Byte)
      requires |uv| >= 2 && specularMap.Valid() && LookupDefined(specularMap, uv)
      reads this, specularMap, specularMap.data
      ensures var texel := specularMap.GetPixel(TexelColumn(specularMap.width, uv[0]), TexelRow(specularMap.height, uv[1]));
              forall n: nat :: n < UINT_RANGE && FromUint(n) == texel ==> ByteValue(e) == n % 256
    {
      Channel(specularMap.GetPixel(TexelColumn(specularMap.width, uv[0]), TexelRow(specularMap.height, uv[1])), 0)
    }
  }

  /** A `size_t` converted to `int`: taken modulo 2^32 and read as a signed 32-bit number. */
  function SizeToInt(n: nat): (i: int)
    ensures n <= INT_MAX ==> i == n
    ensures INT_MIN <= i <= INT_MAX
  {
    AsInt(n % UINT_RANGE)
  }

  /** `std::min(size * t, (double)size - 1)`, the clamped coordinate before it is converted to `unsigned int`. */
  function ClampedCoordinate(size: nat, t: real): (x: real)
    ensures x <= size as real - 1.0 && (x == size as real * t || x == size as real - 1.0)
  {
    if size as real - 1.0 < size as real * t then size as real - 1.0 else size as real * t
  }

  /** The conversions of both clamped coordinates to `unsigned int` are defined. */
  predicate LookupDefined(img: Image<Pixel>, uv: Vec)
    requires |uv| >= 2
  {
    FitsUnsigned(ClampedCoordinate(img.width, uv[0])) && FitsUnsigned(ClampedCoordinate(img.height, 1.0 - uv[1]))
  }

  /** The column of a lookup: u scaled to the width, clamped to the last column, truncated. */
  function TexelColumn(width: nat, u: real): (x: nat)
    requires FitsUnsigned(ClampedCoordinate(width, u))
  {
    Trunc(ClampedCoordinate(width, u))
  }

  /** The row of a lookup: v counts upwards, so the row comes from 1 - v. */
  function TexelRow(height: nat, v: real): (y: nat)
    requires FitsUnsigned(ClampedCoordinate(height, 1.0 - v))
  {
    Trunc(ClampedCoordinate(height, 1.0 - v))
  }

  /**
   * A texel lookup on a non-empty map with a non-negative coordinate is
   * defined and stays on the map, however far past 1 the coordinate goes.
   */
  lemma CoordinateInRange(size: nat, t: real)
    requires 0 < size < UINT_RANGE && 0.0 <= t
    ensures FitsUnsigned(ClampedCoordinate(size, t))
    ensures 0 <= Trunc(ClampedCoordinate(size, t)) < size
  {
    var x := ClampedCoordinate(size, t);
    assert 0.0 <= size as real * t;
    assert 0.0 <= x;
    TruncBelowSize(x, size);
  }

  lemma TruncBelowSize(x: real, size: nat)
    requires 0.0 <= x <= size as real - 1.0
    ensures Trunc(x) < size
  {
  }

  /** Any uv in the unit square reads the texture texel at the clamped position, which lies in the buffer. */
  lemma TextureInBounds(m: Model, uv: Vec)
    requires |uv| >= 2 && m.textureMap.Valid() && m.textureMap.width > 0 && m.textureMap.height > 0
    requires 0.0 <= uv[0] && uv[1] <= 1.0
    ensures LookupDefined(m.textureMap, uv)
    ensures var x, y := TexelColumn(m.textureMap.width, uv[0]), TexelRow(m.textureMap.height, uv[1]);
            x < m.textureMap.width && y < m.textureMap.height &&
            m.GetTexture(uv) == m.textureMap.data[Index(x, y, m.textureMap.width, m.textureMap.height)]
  {
    CoordinateInRange(m.textureMap.width, uv[0]);
    CoordinateInRange(m.textureMap.height, 1.0 - uv[1]);
  }

  /** `b / 255.f * 2.f - 1.f`: a byte mapped linearly onto [-1, 1]. */
  function DecodeComponent(b: Byte): (x: real)
    ensures -1.0 <= x <= 1.0
  {
    ByteValue(b) as real / 255.0 * 2.0 - 1.0
  }

  /** Byte 0 decodes to -1, byte 255 to 1, and larger bytes to larger components. */
  lemma DecodeMonotone(a: Byte, b: Byte)
    ensures DecodeComponent(0) == -1.0 && DecodeComponent(0xff) == 1.0
    ensures ByteValue(a) < ByteValue(b) ==> DecodeComponent(a) < DecodeComponent(b)
  {
    assert ByteValue(0xff) == 255;
  }
}
