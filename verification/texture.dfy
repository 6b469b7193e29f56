/** Texture::sample of engine/src/assets/texture.cpp: texture coordinates
    are clamped to [0, 1], scaled to texel coordinates, truncated, flipped
    vertically and clamped again before one read of the pixel array. */
module Textures {
  import opened Wrappers
  import opened Numeric
  import opened Grids

  /** A texture: its ARGB pixels (None for a null `texturePixels`), texWidth
      and texHeight. Loading from BMP is not part of this model. */
  datatype Texture = Texture(pixels: Option<seq<bv32>>, width: int, height: int)

  /** What a loaded surface provides: at least one texel, and exactly
      width * height of them. Without pixels the sizes are never read. */
  predicate WellFormed(t: Texture) {
    t.pixels.Some? ==> t.width >= 1 && t.height >= 1 && |t.pixels.value| == t.width * t.height
  }

  /** The colour returned when there are no pixels. */
  const NoTexel: bv32 := 0xFFFF_FFFF

  /** The texel column for u (lines 40, 43, 46). */
  function Column(u: real, width: int): (x: int)
    requires width >= 1
    ensures 0 <= x < width
  {
    ClampInt(Trunc(ClampReal(u, 0.0, 1.0) * width as real), 0, width - 1)
  }

  /** The texel row for v, counted from the top: row 0 holds v = 1 (lines
      41, 44, 47). */
  function Row(v: real, height: int): (y: int)
    requires height >= 1
    ensures 0 <= y < height
  {
    ClampInt(Trunc((1.0 - ClampReal(v, 0.0, 1.0)) * height as real), 0, height - 1)
  }

  /** sample(u, v) (lines 37-50). */
  function Sample(t: Texture, u: real, v: real): (c: bv32)
    requires WellFormed(t)
    ensures t.pixels.None? ==> c == NoTexel
    ensures t.pixels.Some? ==> c in t.pixels.value
  {
    if t.pixels.None? then NoTexel
    else t.pixels.value[Cell(t.width, t.height, Column(u, t.width), Row(v, t.height))]
  }

  /** u and v are clamped before anything else: sampling outside [0, 1]
      reads the same texel as sampling at the nearest edge. */
  lemma SampleClampsCoordinates(t: Texture, u: real, v: real)
    requires WellFormed(t)
    ensures Sample(t, u, v) == Sample(t, ClampReal(u, 0.0, 1.0), ClampReal(v, 0.0, 1.0))
  {
  }

  /** A fraction in [0, 1) of a positive length stays below that length. */
  lemma ScaledBelow(u: real, w: real)
    requires 0.0 <= u < 1.0 && w > 0.0
    ensures 0.0 <= u * w < w
  {
    assert w - u * w == (1.0 - u) * w;
  }

  /** Inside [0, 1) the column is the cell of width 1/width that holds u. */
  lemma ColumnHoldsU(u: real, width: int)
    requires width >= 1 && 0.0 <= u < 1.0
    ensures var x := Column(u, width);
      x as real <= u * width as real < x as real + 1.0
  {
    var w := width as real;
    ScaledBelow(u, w);
    var n := Trunc(u * w);
    assert n as real <= u * w < n as real + 1.0;
    assert 0 <= n < width;
    assert Column(u, width) == n;
  }

  /** A texel coordinate below the size survives the final clamp untouched. */
  lemma TruncWithin(a: real, size: int)
    requires size >= 1 && 0.0 <= a < size as real
    ensures ClampInt(Trunc(a), 0, size - 1) == Trunc(a)
  {
  }

  /** Inside (0, 1] the row is the cell holding 1 - v: the image is flipped. */
  lemma RowHoldsFlippedV(v: real, height: int)
    requires height >= 1 && 0.0 < v <= 1.0
    ensures var y := Row(v, height);
      y as real <= (1.0 - v) * height as real < y as real + 1.0
  {
    var a := (1.0 - v) * height as real;
    ScaledBelow(1.0 - v, height as real);
    TruncWithin(a, height);
    assert ClampReal(v, 0.0, 1.0) == v;
  }

  /** The edges: u = 0 reads column 0 and u = 1 the last column (through
      the second clamp); v = 1 reads row 0 and v = 0 the last row. */
  lemma SampleEdges(width: int, height: int)
    requires width >= 1 && height >= 1
    ensures Column(0.0, width) == 0 && Column(1.0, width) == width - 1
    ensures Row(1.0, height) == 0 && Row(0.0, height) == height - 1
  {
    assert Trunc(width as real) == width;
    assert Trunc(height as real) == height;
  }

  /** The corners: (u, v) = (0, 1) reads the first texel in memory and
      (1, 0) the last one. */
  lemma SampleCorners(t: Texture)
    requires WellFormed(t) && t.pixels.Some?
    ensures Sample(t, 0.0, 1.0) == t.pixels.value[0]
    ensures Sample(t, 1.0, 0.0) == t.pixels.value[|t.pixels.value| - 1]
  {
    SampleEdges(t.width, t.height);
    assert (t.height - 1) * t.width + (t.width - 1) == t.width * t.height - 1;
  }
}
