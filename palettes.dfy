// The posterization palettes of posterization.h: each is a list of
// (colour, upper bound) pairs that the posterization shader reads in order,
// taking the colour of the first entry whose bound lies above the diffuse term.

module Posterization {
  import opened Pixels

  /** One palette entry: a packed colour and the exclusive upper bound of its band. */
  datatype Band = Band(color: Pixel, bound: real)

  type Palette = seq<Band>

  /** Each bound lies strictly above the one before it. */
  predicate Increasing(p: Palette)
  {
    forall i :: 0 < i < |p| ==> p[i - 1].bound < p[i].bound
  }

  /** Any two bounds are ordered as their entries are. */
  predicate Sorted(p: Palette)
  {
    forall i, j :: 0 <= i < j < |p| ==> p[i].bound < p[j].bound
  }

  /** Rising from each entry to the next makes the whole palette sorted. */
  lemma {:induction false} IncreasingSorted(p: Palette)
    requires Increasing(p)
    ensures Sorted(p)
    decreases |p|
  {
    if |p| > 1 {
      var q := p[..|p| - 1];
      assert Increasing(q) by {
        forall i | 0 < i < |q| ensures q[i - 1].bound < q[i].bound {
          assert q[i - 1] == p[i - 1] && q[i] == p[i];
        }
      }
      IncreasingSorted(q);
      forall i, j | 0 <= i < j < |p| ensures p[i].bound < p[j].bound {
        if j < |p| - 1 {
          assert p[i] == q[i] && p[j] == q[j];
        } else if i < |p| - 2 {
          assert p[i] == q[i] && p[|p| - 2] == q[|p| - 2];
        }
      }
    }
  }

  /** Every colour has alpha byte 0xFF. */
  predicate Opaque(p: Palette)
  {
    forall i :: 0 <= i < |p| ==> Channel(p[i].color, 3) == 0xff
  }

  /** The shape every palette of posterization.h has: non-empty, rising bounds ending at 1.0, opaque colours. */
  predicate WellFormed(p: Palette)
  {
    |p| > 0 && Increasing(p) && p[|p| - 1].bound == 1.0 && Opaque(p)
  }

  /** In a well-formed palette no bound exceeds 1.0, and only the last one reaches it. */
  lemma BoundsBelowOne(p: Palette)
    requires WellFormed(p)
    ensures forall i :: 0 <= i < |p| - 1 ==> p[i].bound < 1.0
    ensures forall i :: 0 <= i < |p| ==> p[i].bound <= 1.0
  {
    IncreasingSorted(p);
  }

  /** CoolGradientPosterization. */
  function CoolGradient(): (p: Palette)
    ensures WellFormed(p) && |p| == 6
  {
    [Band(0xFF000000, 0.15), Band(0xFF403020, 0.30), Band(0xFF804000, 0.50),
     Band(0xFFB07020, 0.70), Band(0xFFF0A050, 0.85), Band(0xFFFFD090, 1.00)]
  }

  /** WarmGradientPosterization. */
  function WarmGradient(): (p: Palette)
    ensures WellFormed(p) && |p| == 6
  {
    [Band(0xFF000000, 0.15), Band(0xFF203040, 0.30), Band(0xFF406080, 0.50),
     Band(0xFF6090B0, 0.70), Band(0xFF80B0E0, 0.85), Band(0xFFA0D0FF, 1.0)]
  }

  /** GrayTonesPosterization. */
  function GrayTones(): (p: Palette)
    ensures WellFormed(p) && |p| == 4
  {
    [Band(0xFF101010, 0.25), Band(0xFF202020, 0.50), Band(0xFF303030, 0.75), Band(0xFF404040, 1.00)]
  }

  /** DarkBlueToOrangePosterization. */
  function DarkBlueToOrange(): (p: Palette)
    ensures WellFormed(p) && |p| == 4
  {
    [Band(0xFF000000, 0.20), Band(0xFF2C190B, 0.45), Band(0xFF623E1E, 0.70), Band(0xFF0065FF, 1.00)]
  }

  /** RandomPosterization. */
  function RandomColors(): (p: Palette)
    ensures WellFormed(p) && |p| == 7
  {
    [Band(0xFF6C7059, 0.04), Band(0xFF1E213D, 0.07), Band(0xFFFAD201, 0.10), Band(0xFF3D642D, 0.20),
     Band(0xFFF39F18, 0.40), Band(0xFF193737, 0.80), Band(0xFFFFFFFF, 1.00)]
  }

  /** LowBandPassPosterization: black outside the band [0.10, 0.25), neon green inside it. */
  function LowBandPass(): (p: Palette)
    ensures WellFormed(p) && |p| == 3
  {
    [Band(0xFF000000, 0.10), Band(0xFF39FF14, 0.25), Band(0xFF000000, 1.00)]
  }
}
