// The buffer routines of renderer.h: img_fill, and img_save's P6 output (a
// text header followed by three bytes per pixel) with the file as a result.

module ImageOutput {
  import opened Pixels
  import opened Raster
  import opened Wrappers
  import opened DecimalText

  // ---------------------------------------------------------------- img_fill

  /** img_fill: every one of the width * height pixels becomes color. */
  method ImgFill<T>(canvas: Image<T>, color: T)
    requires canvas.Valid()
    modifies canvas.data
    ensures canvas.data[..] == seq(canvas.data.Length, _ => color)
    ensures forall x: nat, y: nat :: canvas.InBounds(x, y) ==> canvas.GetPixel(x, y) == color
  {
    var i := 0;
    while i < canvas.width * canvas.height
      invariant 0 <= i <= canvas.data.Length
      invariant canvas.data[..i] == seq(i, _ => color)
      invariant canvas.data[i..] == old(canvas.data[..])[i..]
    {
      canvas.Put(i, color);
      i := i + 1;
    }
    assert canvas.data[..] == canvas.data[..i];
  }

  // ---------------------------------------------------------------- img_save

  /** The P6 header: magic number, width, height and the maximum channel value 255, each line-separated or space-separated. */
  function Header(width: nat, height: nat): string
  {
    "P6\n" + Decimal(width) + " " + Decimal(height) + " 255\n"
  }

  /** Reads a P6 header back: the width and height it announces, if it has the P6 form with maximum 255. */
  function ParseHeader(s: string): (r: Option<(nat, nat)>)
  {
    if |s| < 3 || s[..3] != "P6\n" then None
    else
      var w := SplitDigits(s[3..]);
      if |w.0| == 0 || |w.1| == 0 || w.1[0] != ' ' then None
      else
        var h := SplitDigits(w.1[1..]);
        if |h.0| == 0 || h.1 != " 255\n" then None
        else Some((DigitsValue(w.0), DigitsValue(h.0)))
  }

  /** The header announces the canvas size. */
  lemma HeaderRoundTrip(width: nat, height: nat)
    ensures ParseHeader(Header(width, height)) == Some((width, height))
  {
    var dw, dh := Decimal(width), Decimal(height);
    var rest := dh + " 255\n";
    var tail := " " + rest;
    var s := Header(width, height);
    assert s == "P6\n" + (dw + tail);
    ConcatParts("P6\n", dw + tail);
    SplitDigitsPrefix(dw, tail);
    ConcatParts(" ", rest);
    SplitDigitsPrefix(dh, " 255\n");
    DecimalRoundTrip(width);
    DecimalRoundTrip(height);
  }

  lemma ConcatParts(a: string, b: string)
    ensures (a + b)[..|a|] == a && (a + b)[|a|..] == b
  {
  }

  /** The pixel bytes: red, green and blue of each pixel in buffer order; alpha is not written. */
  function Body(pixels: seq<Pixel>): (b: seq<Byte>)
    ensures |b| == 3 * |pixels|
  {
    if |pixels| == 0 then []
    else
      var last := pixels[|pixels| - 1];
      Body(pixels[..|pixels| - 1]) + [Channel(last, 0), Channel(last, 1), Channel(last, 2)]
  }

  /** Byte 3i + k of the body is channel k of pixel i. */
  lemma {:induction false} BodyLayout(pixels: seq<Pixel>, i: nat, k: nat)
    requires i < |pixels| && k < 3
    ensures Body(pixels)[3 * i + k] == Channel(pixels[i], k)
    decreases |pixels|
  {
    var n := |pixels| - 1;
    if i < n {
      BodyLayout(pixels[..n], i, k);
    }
  }

  /**
   * img_save with the file as its result: -1 and nothing written when the
   * file cannot be opened; otherwise 0, the header, and the body of
   * width * height pixels.
   */
  method ImgSave(canvas: Image<Pixel>, isOpen: bool) returns (r: int, header: string, body: seq<Byte>)
    requires canvas.Valid()
    ensures !isOpen ==> r == -1 && header == [] && body == []
    ensures isOpen ==> r == 0 && header == Header(canvas.width, canvas.height) && body == Body(canvas.data[..])
  {
    if !isOpen {
      return -1, [], [];
    }
    header := Header(canvas.width, canvas.height);
    body := [];
    var i := 0;
    while i < canvas.width * canvas.height
      invariant 0 <= i <= canvas.data.Length
      invariant body == Body(canvas.data[..i])
    {
      var c := canvas.At(i);
      body := body + [Channel(c, 0), Channel(c, 1), Channel(c, 2)];
      assert canvas.data[..i + 1][..i] == canvas.data[..i];
      i := i + 1;
    }
    assert canvas.data[..i] == canvas.data[..];
    r := 0;
  }
}
