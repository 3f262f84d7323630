// The raster surface of image.h: a width x height buffer of pixels stored row
// by row, with bounds-checked pixel access and the conversion of TGA pixel
// data (1, 3 or 4 bytes per pixel, blue first) into packed RGBA colours.

module Raster {
  import opened Pixels
  import opened Numeric

  /** Row-major position of pixel (x, y) in a buffer `width` pixels wide. */
  function Index(x: nat, y: nat, width: nat, height: nat): (i: nat)
    requires x < width && y < height
    ensures i < width * height
  {
    MulMonotone(y + 1, height, width);
    y * width + x
  }

  /** Distinct in-bounds coordinates occupy distinct buffer positions. */
  lemma IndexInjective(x: nat, y: nat, x': nat, y': nat, width: nat, height: nat)
    requires x < width && x' < width && y < height && y' < height
    requires Index(x, y, width, height) == Index(x', y', width, height)
    ensures x == x' && y == y'
  {
    MulMonotone(y + 1, y', width);
    MulMonotone(y' + 1, y, width);
  }

  /** Every position of the buffer is the position of some pixel: column i % width of row i / width. */
  lemma IndexOnto(i: nat, width: nat, height: nat)
    requires i < width * height
    ensures 0 < width && i % width < width && i / width < height
    ensures Index(i % width, i / width, width, height) == i
  {
    var x, y := i % width, i / width;
    assert i == y * width + x;
    MulMonotone(height, y, width);
  }

  /** The column of buffer position i in a buffer `width` pixels wide. */
  function Column(i: nat, width: nat): nat
    requires 0 < width
  {
    i % width
  }

  /** The row of buffer position i in a buffer `width` pixels wide. */
  function Row(i: nat, width: nat): nat
    requires 0 < width
  {
    i / width
  }

  lemma MulMonotone(a: nat, b: nat, w: nat)
    ensures a <= b ==> a * w <= b * w
  {
  }

  class Image<T> {
    const width: nat
    const height: nat
    const data: array<T>
    /** The value-initialised pixel (`pixel_T()`), returned for reads out of bounds. */
    const zero: T

    predicate Valid()
    {
      data.Length == width * height &&
      width < UINT_RANGE && height < UINT_RANGE && width * height < UINT_RANGE
    }

    /** A fresh image whose every pixel is value-initialised. */
    constructor (w: nat, h: nat, zero: T)
      requires w < UINT_RANGE && h < UINT_RANGE && w * h < UINT_RANGE
      ensures Valid() && width == w && height == h && this.zero == zero
      ensures fresh(data)
      ensures forall i :: 0 <= i < data.Length ==> data[i] == zero
    {
      width, height, this.zero := w, h, zero;
      data := new T[w * h](_ => zero);
    }

    predicate InBounds(x: nat, y: nat)
    {
      x < width && y < height
    }

    /**
     * Whether operator[] reports an access as out of bounds. It compares
     * with `>`, so the one-past-the-end index is read without a report.
     */
    predicate AccessReported(idx: nat)
    {
      idx > height * width
    }

    /** The corrected report: exactly the indices that are not in the buffer. */
    predicate AccessOutOfRange(idx: nat)
      requires Valid()
      ensures AccessOutOfRange(idx) <==> idx >= data.Length
    {
      idx >= height * width
    }

    /**
     * operator[] as a read: position idx of the buffer holds the pixel in
     * column idx % width of row idx / width, which lies on the image.
     */
    function At(idx: nat): (p: T)
      requires Valid() && !AccessOutOfRange(idx)
      reads data
      ensures p == data[idx]
      ensures 0 < width
      ensures InBounds(Column(idx, width), Row(idx, width)) && p == GetPixel(Column(idx, width), Row(idx, width))
    {
      IndexOnto(idx, width, height);
      data[idx]
    }

    /** operator[] as the target of an assignment. */
    method Put(idx: nat, c: T)
      requires Valid() && !AccessOutOfRange(idx)
      modifies data
      ensures data[..] == old(data[..])[idx := c]
    {
      data[idx] := c;
    }

    /** get_pixel: the stored pixel when (x, y) is on the image, otherwise pixel_T(). */
    function GetPixel(x: nat, y: nat): (p: T)
      requires Valid()
      reads data
      ensures InBounds(x, y) ==> Index(x, y, width, height) < data.Length && p == data[Index(x, y, width, height)]
      ensures !InBounds(x, y) ==> p == zero
    {
      if x < width && y < height then
        data[Index(x, y, width, height)]
      else
        zero
    }

    /**
     * set_pixel: writes exactly one buffer position when (x, y) is on the
     * image and nothing otherwise; reading the pixel back gives c.
     */
    method SetPixel(x: nat, y: nat, c: T)
      requires Valid()
      modifies data
      ensures InBounds(x, y) ==> data[..] == old(data[..])[Index(x, y, width, height) := c]
      ensures !InBounds(x, y) ==> data[..] == old(data[..])
      ensures InBounds(x, y) ==> GetPixel(x, y) == c
      ensures forall x', y' :: InBounds(x', y') && (x' != x || y' != y) ==>
                GetPixel(x', y') == old(GetPixel(x', y'))
    {
      ghost var before := data[..];
      if x < width && y < height {
        var idx := Index(x, y, width, height);
        data[idx] := c;
        assert data[..] == before[idx := c];
        forall x', y' | InBounds(x', y') && (x' != x || y' != y)
          ensures GetPixel(x', y') == old(GetPixel(x', y'))
        {
          if Index(x', y', width, height) == Index(x, y, width, height) {
            IndexInjective(x', y', x, y, width, height);
          }
          assert GetPixel(x', y') == data[Index(x', y', width, height)] == before[Index(x', y', width, height)];
        }
      }
    }

    /**
     * nbytes: width * height * sizeof(pixel_T), computed in unsigned arithmetic
     * and returned as a 32-bit int, so it agrees with the buffer size in bytes
     * modulo 2^32 and equals it whenever that size is below 2^31.
     */
    function NBytes(pixelSize: nat): (n: int)
      requires Valid() && pixelSize < UINT_RANGE
      ensures -0x8000_0000 <= n < 0x8000_0000
      ensures (n - data.Length * pixelSize) % UINT_RANGE == 0
      ensures data.Length * pixelSize < 0x8000_0000 ==> n == data.Length * pixelSize
    {
      var unsigned := (width * height * pixelSize) % UINT_RANGE;
      if unsigned < 0x8000_0000 then unsigned else unsigned - UINT_RANGE
    }
  }

  /** The pixel data of a TGA image, as handed over by the TGA reader. */
  datatype TgaImage = TgaImage(width: nat, height: nat, bpp: int, bytes: seq<Byte>)
  {
    /** The reader supplies width * height * bpp bytes for the layouts it knows. */
    predicate WellFormed()
    {
      width < UINT_RANGE && height < UINT_RANGE && width * height < UINT_RANGE &&
      (bpp == 1 || bpp == 3 || bpp == 4 ==> |bytes| >= width * height * bpp)
    }
  }

  /**
   * Pixel i of Image<uint32_t>(tga): 3 bytes per pixel are blue, green, red
   * and become red, green, blue with an opaque alpha; 4 bytes per pixel move
   * alpha along; 1 byte per pixel lands in the red byte; any other layout
   * leaves the value-initialised 0.
   */
  function TgaPixel(tga: TgaImage, i: nat): (p: Pixel)
    requires tga.WellFormed() && i < tga.width * tga.height
    ensures tga.bpp == 3 ==>
      Channel(p, 0) == tga.bytes[3 * i + 2] && Channel(p, 1) == tga.bytes[3 * i + 1] &&
      Channel(p, 2) == tga.bytes[3 * i] && Channel(p, 3) == 0xff
    ensures tga.bpp == 4 ==>
      Channel(p, 0) == tga.bytes[4 * i + 2] && Channel(p, 1) == tga.bytes[4 * i + 1] &&
      Channel(p, 2) == tga.bytes[4 * i] && Channel(p, 3) == tga.bytes[4 * i + 3]
    ensures tga.bpp == 1 ==>
      Channel(p, 0) == tga.bytes[i] && Channel(p, 1) == 0 && Channel(p, 2) == 0 && Channel(p, 3) == 0
    ensures tga.bpp != 1 && tga.bpp != 3 && tga.bpp != 4 ==> p == 0
  {
    var b := tga.bytes;
    if tga.bpp == 3 then Pack(b[3 * i + 2], b[3 * i + 1], b[3 * i], 0xff)
    else if tga.bpp == 4 then Pack(b[4 * i + 2], b[4 * i + 1], b[4 * i], b[4 * i + 3])
    else if tga.bpp == 1 then Pack(b[i], 0, 0, 0)
    else 0
  }

  /** Pixel i of Image<uint8_t>(tga): a 1:1 copy of grey-scale data, otherwise 0. */
  function TgaGrey(tga: TgaImage, i: nat): (g: Byte)
    requires tga.WellFormed() && i < tga.width * tga.height
    ensures tga.bpp == 1 ==> g == tga.bytes[i]
    ensures tga.bpp != 1 ==> g == 0
  {
    if tga.bpp == 1 then tga.bytes[i] else 0
  }

  /** Image<uint32_t>(TGAImage): the per-pixel byte shuffles into a zeroed buffer. */
  method FromTga(tga: TgaImage) returns (img: Image<Pixel>)
    requires tga.WellFormed()
    ensures fresh(img) && fresh(img.data) && img.Valid()
    ensures img.width == tga.width && img.height == tga.height && img.zero == 0
    ensures forall i :: 0 <= i < img.data.Length ==> img.data[i] == TgaPixel(tga, i)
  {
    img := new Image<Pixel>(tga.width, tga.height, 0);
    var n := tga.width * tga.height;
    var b := tga.bytes;
    if tga.bpp == 3 {
      for i := 0 to n
        invariant forall j :: 0 <= j < i ==> img.data[j] == TgaPixel(tga, j)
        invariant forall j :: i <= j < n ==> img.data[j] == 0
      {
        var p := img.data[i];
        p := WithChannel(p, 3, 0xff);
        p := WithChannel(p, 0, b[3 * i + 2]);
        p := WithChannel(p, 1, b[3 * i + 1]);
        p := WithChannel(p, 2, b[3 * i]);
        SameAsTga(p, tga, i);
        img.data[i] := p;
      }
    } else if tga.bpp == 4 {
      for i := 0 to n
        invariant forall j :: 0 <= j < i ==> img.data[j] == TgaPixel(tga, j)
        invariant forall j :: i <= j < n ==> img.data[j] == 0
      {
        var p := img.data[i];
        p := WithChannel(p, 3, b[4 * i + 3]);
        p := WithChannel(p, 0, b[4 * i + 2]);
        p := WithChannel(p, 1, b[4 * i + 1]);
        p := WithChannel(p, 2, b[4 * i]);
        SameAsTga(p, tga, i);
        img.data[i] := p;
      }
    } else if tga.bpp == 1 {
      for i := 0 to n
        invariant forall j :: 0 <= j < i ==> img.data[j] == TgaPixel(tga, j)
        invariant forall j :: i <= j < n ==> img.data[j] == 0
      {
        var p := img.data[i];
        p := WithChannel(p, 0, b[i]);
        assert Channel(p, 1) == Channel(0, 1) && Channel(p, 2) == Channel(0, 2) && Channel(p, 3) == Channel(0, 3);
        SameAsTga(p, tga, i);
        img.data[i] := p;
      }
    }
  }

  /** A pixel whose bytes are those TgaPixel prescribes is that pixel. */
  lemma SameAsTga(p: Pixel, tga: TgaImage, i: nat)
    requires tga.WellFormed() && i < tga.width * tga.height
    requires forall k :: 0 <= k < 4 ==> Channel(p, k) == Channel(TgaPixel(tga, i), k)
    ensures p == TgaPixel(tga, i)
  {
    ChannelsDetermine(p, TgaPixel(tga, i));
  }

  /** Image<uint8_t>(TGAImage): copies grey-scale bytes, leaves zeros for other layouts. */
  method FromTgaGrey(tga: TgaImage) returns (img: Image<Byte>)
    requires tga.WellFormed()
    ensures fresh(img) && fresh(img.data) && img.Valid()
    ensures img.width == tga.width && img.height == tga.height && img.zero == 0
    ensures forall i :: 0 <= i < img.data.Length ==> img.data[i] == TgaGrey(tga, i)
  {
    img := new Image<Byte>(tga.width, tga.height, 0);
    var n := tga.width * tga.height;
    if tga.bpp == 1 {
      for i := 0 to n
        invariant forall j :: 0 <= j < i ==> img.data[j] == TgaGrey(tga, j)
        invariant forall j :: i <= j < n ==> img.data[j] == 0
      {
        img.data[i] := tga.bytes[i];
      }
    }
  }

  /**
   * The report test of operator[] lets the one-past-the-end index through
   * unreported, although it is outside the buffer.
   */
  lemma OnePastEndUnreported(img: Image<Pixel>)
    requires img.Valid()
    ensures !img.AccessReported(img.width * img.height)
    ensures img.AccessOutOfRange(img.width * img.height)
  {
  }
}
