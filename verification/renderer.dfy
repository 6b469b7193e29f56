/** The discrete part of engine/src/renderer/renderer.cpp: the 0x00RRGGBB
    colour packing, the conversion of a lit colour channel to a byte, the
    clamping of a triangle's bounding box to the screen, and the frame and
    depth buffers that `clear` and `drawPixel` update. The buffers are
    specified as a `Frame` value; the `Renderer` class holds them in arrays
    and its methods are proved equal to the specification. */
module Rendering {
  import opened Wrappers
  import opened Numeric
  import opened Vectors
  import opened Grids

  // ---- colours ----

  /** `(r << 16) | (g << 8) | b` with 8-bit channels (lines 65 and 250). */
  function Pack(r: bv8, g: bv8, b: bv8): (c: bv32)
    ensures c & 0xFF00_0000 == 0
  {
    (r as bv32 << 16) | (g as bv32 << 8) | b as bv32
  }

  /** `(c >> 16) & 0xFF`, `(c >> 8) & 0xFF` and `c & 0xFF` (lines 224-226). */
  function Red(c: bv32): bv8 {
    ((c >> 16) & 0xFF) as bv8
  }

  function Green(c: bv32): bv8 {
    ((c >> 8) & 0xFF) as bv8
  }

  function Blue(c: bv32): bv8 {
    (c & 0xFF) as bv8
  }

  /** Unpacking a packed colour gives back its channels. */
  lemma UnpackPack(r: bv8, g: bv8, b: bv8)
    ensures Red(Pack(r, g, b)) == r && Green(Pack(r, g, b)) == g && Blue(Pack(r, g, b)) == b
  {
  }

  /** Packing the channels of any colour gives it back without its top byte. */
  lemma PackUnpack(c: bv32)
    ensures Pack(Red(c), Green(c), Blue(c)) == c & 0x00FF_FFFF
  {
  }

  /** The sky colour `clear` writes: 135, 206, 235. */
  const SkyColor: bv32 := Pack(135, 206, 235)

  lemma SkyColorValue()
    ensures SkyColor == 0x87CEEB
    ensures Red(SkyColor) == 135 && Green(SkyColor) == 206 && Blue(SkyColor) == 235
  {
    UnpackPack(135, 206, 235);
  }

  /** `static_cast<Uint8>(std::clamp(x * 255.0f, 0.0f, 255.0f))` (lines
      246-248): the channel is scaled, clamped and truncated. */
  function Channel(x: real): (b: bv8)
    ensures x <= 0.0 ==> b == 0
    ensures x >= 1.0 ==> b == 255
    ensures 0.0 <= x < 1.0 ==> (b as int) as real <= x * 255.0 < (b as int) as real + 1.0
  {
    var s := ClampReal(x * 255.0, 0.0, 255.0);
    var n := Trunc(s);
    assert 0 <= n <= 255;
    Byte(n)
  }

  /** The conversion of an int in [0, 255] to Uint8, built up one unit at
      a time so that its value is known as an int. */
  function Byte(n: int): (b: bv8)
    requires 0 <= n <= 255
    ensures b as int == n
    decreases n
  {
    if n == 0 then 0 else Byte(n - 1) + 1
  }

  /** The colour handed to drawPixel for a lit colour (lines 246-250). */
  function ShadeColor(lit: Vec3): (c: bv32)
    ensures Red(c) == Channel(lit.x) && Green(c) == Channel(lit.y) && Blue(c) == Channel(lit.z)
  {
    UnpackPack(Channel(lit.x), Channel(lit.y), Channel(lit.z));
    Pack(Channel(lit.x), Channel(lit.y), Channel(lit.z))
  }

  /** A byte scaled into [0, 1]: `r / 255.0f`. */
  function Unit(b: bv8): (x: real)
    ensures 0.0 <= x <= 1.0
  {
    (b as int) as real / 255.0
  }

  /** A sampled texel turned into a base colour (lines 224-228). */
  function TexelColor(t: bv32): (v: Vec3)
    ensures 0.0 <= v.x <= 1.0 && 0.0 <= v.y <= 1.0 && 0.0 <= v.z <= 1.0
  {
    Vec3(Unit(Red(t)), Unit(Green(t)), Unit(Blue(t)))
  }

  /** Two bytes with the same value are the same byte. */
  lemma SameByte(a: bv8, b: bv8)
    requires a as int == b as int
    ensures a == b
  {
  }

  /** A byte scaled into [0, 1] comes back as the same byte. */
  lemma ChannelOfByte(b: bv8)
    ensures Channel(Unit(b)) == b
  {
    var n := b as int;
    assert 0 <= n < 256;
    var x := Unit(b);
    assert x * 255.0 == n as real;
    assert ClampReal(x * 255.0, 0.0, 255.0) == n as real;
    assert Trunc(n as real) == n;
    assert Channel(x) == Byte(n);
    SameByte(Byte(n), b);
  }

  /** Each channel of a texel survives the scaling to [0, 1] and back. */
  lemma TexelChannels(t: bv32)
    ensures var v := TexelColor(t);
      Channel(v.x) == Red(t) && Channel(v.y) == Green(t) && Channel(v.z) == Blue(t)
  {
    ChannelOfByte(Red(t));
    ChannelOfByte(Green(t));
    ChannelOfByte(Blue(t));
  }

  /** Under a total light of exactly 1 a texel is written back unchanged,
      apart from its alpha byte: the byte-to-float-to-byte path is lossless. */
  lemma TexelRoundTrip(t: bv32)
    ensures ShadeColor(TexelColor(t)) == t & 0x00FF_FFFF
  {
    TexelChannels(t);
    PackUnpack(t);
  }

  // ---- the triangle's bounding box ----

  /** The pixel rectangle the rasterizer visits, bounds inclusive. */
  datatype Box = Box(minX: int, maxX: int, minY: int, maxY: int)

  predicate InBox(b: Box, x: int, y: int) {
    b.minX <= x <= b.maxX && b.minY <= y <= b.maxY
  }

  /** Lines 183-186: floor the minima and ceil the maxima, then clamp them
      to the screen. */
  function PixelBox(minX: real, maxX: real, minY: real, maxY: real, width: int, height: int): (b: Box)
    ensures 0 <= b.minX && b.maxX <= width - 1 && 0 <= b.minY && b.maxY <= height - 1
    ensures forall x, y :: InBox(b, x, y) ==> InBounds(width, height, x, y)
  {
    Box(Max(0, Floor(minX)), Min(width - 1, Ceil(maxX)), Max(0, Floor(minY)), Min(height - 1, Ceil(maxY)))
  }

  /** The clamp loses no on-screen pixel of the unclamped box: every pixel
      of the screen whose coordinates lie within the float extents is
      visited. */
  lemma PixelBoxCovers(minX: real, maxX: real, minY: real, maxY: real, width: int, height: int, x: int, y: int)
    requires InBounds(width, height, x, y)
    requires minX <= x as real <= maxX && minY <= y as real <= maxY
    ensures InBox(PixelBox(minX, maxX, minY, maxY, width, height), x, y)
  {
    assert Floor(minX) <= x by {
      assert Floor(minX) as real <= minX;
    }
    assert Ceil(maxX) >= x by {
      assert maxX <= Ceil(maxX) as real;
    }
    assert Floor(minY) <= y by {
      assert Floor(minY) as real <= minY;
    }
    assert Ceil(maxY) >= y by {
      assert maxY <= Ceil(maxY) as real;
    }
  }

  // ---- frame and depth buffers ----

  /** The framebuffer and the depth buffer, both of screenWidth *
      screenHeight cells. Depths are only compared, never computed on. */
  datatype Frame = Frame(colors: seq<bv32>, depth: seq<real>)

  predicate Sized(f: Frame, width: nat, height: nat) {
    |f.colors| == width * height && |f.depth| == width * height
  }

  /** drawPixel(x, y, z, color) (lines 101-109): in bounds, and only when z
      is strictly nearer than the stored depth, both cells are written. */
  function Plot(f: Frame, width: nat, height: nat, x: int, y: int, z: real, color: bv32): (g: Frame)
    requires Sized(f, width, height)
    ensures Sized(g, width, height)
  {
    if !InBounds(width, height, x, y) then f
    else
      PixelIndexInRange(width, height, x, y);
      var i := PixelIndex(width, x, y);
      if z < f.depth[i] then Frame(f.colors[i := color], f.depth[i := z]) else f
  }

  /** What drawPixel does: nothing off screen; on screen the depth becomes
      the minimum of the old depth and z, the colour changes only when z
      wins, and every other cell of both buffers keeps its value. */
  lemma PlotEffect(f: Frame, width: nat, height: nat, x: int, y: int, z: real, color: bv32)
    requires Sized(f, width, height)
    ensures !InBounds(width, height, x, y) ==> Plot(f, width, height, x, y, z, color) == f
    ensures InBounds(width, height, x, y) ==>
      var g := Plot(f, width, height, x, y, z, color);
      var i := PixelIndex(width, x, y);
      && 0 <= i < width * height
      && g.depth[i] == MinReal(f.depth[i], z)
      && g.colors[i] == (if z < f.depth[i] then color else f.colors[i])
      && (forall k :: 0 <= k < width * height && k != i ==> g.colors[k] == f.colors[k] && g.depth[k] == f.depth[k])
  {
    if InBounds(width, height, x, y) {
      PixelIndexInRange(width, height, x, y);
    }
  }

  /** A second write at the same depth loses the tie: the first writer's
      colour stays. In particular drawPixel is idempotent. */
  lemma PlotTieKeepsFirst(f: Frame, width: nat, height: nat, x: int, y: int, z: real, c1: bv32, c2: bv32)
    requires Sized(f, width, height)
    ensures Plot(Plot(f, width, height, x, y, z, c1), width, height, x, y, z, c2) == Plot(f, width, height, x, y, z, c1)
  {
    PlotEffect(f, width, height, x, y, z, c1);
  }

  /** Writes to two different pixels commute. */
  lemma PlotCommutes(f: Frame, width: nat, height: nat, x1: int, y1: int, z1: real, c1: bv32,
                     x2: int, y2: int, z2: real, c2: bv32)
    requires Sized(f, width, height)
    requires x1 != x2 || y1 != y2
    ensures Plot(Plot(f, width, height, x1, y1, z1, c1), width, height, x2, y2, z2, c2)
         == Plot(Plot(f, width, height, x2, y2, z2, c2), width, height, x1, y1, z1, c1)
  {
    if InBounds(width, height, x1, y1) && InBounds(width, height, x2, y2) {
      PixelIndexInRange(width, height, x1, y1);
      PixelIndexInRange(width, height, x2, y2);
      if PixelIndex(width, x1, y1) == PixelIndex(width, x2, y2) {
        PixelIndexInjective(width, height, x1, y1, x2, y2);
      }
    }
  }

  /** The buffers after clear (lines 61-67): sky colour and FLT_MAX. */
  function Cleared(width: nat, height: nat): (f: Frame)
    ensures Sized(f, width, height)
    ensures forall k :: 0 <= k < width * height ==> f.colors[k] == 0x87CEEB && f.depth[k] == FloatMax
  {
    SkyColorValue();
    Frame(seq(width * height, _ => SkyColor), seq(width * height, _ => FloatMax))
  }

  /** After clear, a pixel nearer than FLT_MAX is always drawn. */
  lemma ClearedThenPlot(width: nat, height: nat, x: int, y: int, z: real, color: bv32)
    requires InBounds(width, height, x, y) && z < FloatMax
    ensures var g := Plot(Cleared(width, height), width, height, x, y, z, color);
      g.colors[Cell(width, height, x, y)] == color && g.depth[Cell(width, height, x, y)] == z
  {
    var f := Cleared(width, height);
    var i := Cell(width, height, x, y);
    assert f.depth[i] == FloatMax;
    PlotEffect(f, width, height, x, y, z, color);
  }

  /** The depth buffer is created filled with 0.0 (zBuffer.resize), so
      before the first clear no fragment with a depth of 0 or more is drawn. */
  lemma NothingDrawnBeforeClear(colors: seq<bv32>, width: nat, height: nat, x: int, y: int, z: real, color: bv32)
    requires |colors| == width * height && z >= 0.0
    ensures var f := Frame(colors, seq(width * height, _ => 0.0));
      Plot(f, width, height, x, y, z, color) == f
  {
    if InBounds(width, height, x, y) {
      PixelIndexInRange(width, height, x, y);
    }
  }

  // ---- the pixel loop ----

  /** What the per-pixel body of drawTriangle produces: None when the pixel
      is skipped (outside the edges, or an invalid depth), else the depth
      and colour handed to drawPixel. */
  datatype Fragment = Fragment(depth: real, color: bv32)

  /** Plot a fragment, or nothing for a skipped pixel. */
  function PlotFragment(f: Frame, width: nat, height: nat, x: int, y: int, frag: Option<Fragment>): (g: Frame)
    requires Sized(f, width, height)
    ensures Sized(g, width, height)
  {
    if frag.None? then f else Plot(f, width, height, x, y, frag.value.depth, frag.value.color)
  }

  /** The buffers after the inner loop has visited x = from .. upto - 1 on
      row y. */
  function RowUpTo(f: Frame, width: nat, height: nat, y: int, from: int, upto: int,
                   shade: (int, int) -> Option<Fragment>): (g: Frame)
    requires Sized(f, width, height)
    ensures Sized(g, width, height)
    decreases upto - from
  {
    if upto <= from then f
    else PlotFragment(RowUpTo(f, width, height, y, from, upto - 1, shade), width, height, upto - 1, y, shade(upto - 1, y))
  }

  /** The buffers after the outer loop has visited rows b.minY .. upto - 1. */
  function BoxUpTo(f: Frame, width: nat, height: nat, b: Box, upto: int,
                   shade: (int, int) -> Option<Fragment>): (g: Frame)
    requires Sized(f, width, height)
    ensures Sized(g, width, height)
    decreases upto - b.minY
  {
    if upto <= b.minY then f
    else RowUpTo(BoxUpTo(f, width, height, b, upto - 1, shade), width, height, upto - 1, b.minX, b.maxX + 1, shade)
  }

  /** The loop over a box: every cell of a pixel outside it keeps its value. */
  ghost predicate SameOutside(f: Frame, g: Frame, width: nat, height: nat, b: Box)
    requires Sized(f, width, height) && Sized(g, width, height)
  {
    forall x, y :: InBounds(width, height, x, y) && !InBox(b, x, y) ==>
      g.colors[Cell(width, height, x, y)] == f.colors[Cell(width, height, x, y)]
      && g.depth[Cell(width, height, x, y)] == f.depth[Cell(width, height, x, y)]
  }

  /** Depths only ever decrease. */
  ghost predicate NoFarther(f: Frame, g: Frame)
    requires |f.depth| == |g.depth|
  {
    forall k :: 0 <= k < |f.depth| ==> g.depth[k] <= f.depth[k]
  }

  lemma PlotOutsideCell(f: Frame, width: nat, height: nat, px: int, py: int, z: real, c: bv32, x: int, y: int)
    requires Sized(f, width, height)
    requires InBounds(width, height, x, y) && (x != px || y != py)
    ensures var g := Plot(f, width, height, px, py, z, c);
      g.colors[Cell(width, height, x, y)] == f.colors[Cell(width, height, x, y)]
      && g.depth[Cell(width, height, x, y)] == f.depth[Cell(width, height, x, y)]
  {
    PixelIndexInRange(width, height, x, y);
    PlotEffect(f, width, height, px, py, z, c);
    if InBounds(width, height, px, py) && PixelIndex(width, x, y) == PixelIndex(width, px, py) {
      PixelIndexInjective(width, height, x, y, px, py);
    }
  }

  /** One fragment inside the box keeps the outside and brings no depth
      farther. */
  lemma PlotFragmentFrame(f: Frame, width: nat, height: nat, px: int, py: int, frag: Option<Fragment>, b: Box)
    requires Sized(f, width, height) && InBox(b, px, py)
    ensures SameOutside(f, PlotFragment(f, width, height, px, py, frag), width, height, b)
    ensures NoFarther(f, PlotFragment(f, width, height, px, py, frag))
  {
    if frag.Some? {
      var g := PlotFragment(f, width, height, px, py, frag);
      PlotEffect(f, width, height, px, py, frag.value.depth, frag.value.color);
      forall x, y | InBounds(width, height, x, y) && !InBox(b, x, y)
        ensures g.colors[Cell(width, height, x, y)] == f.colors[Cell(width, height, x, y)]
          && g.depth[Cell(width, height, x, y)] == f.depth[Cell(width, height, x, y)]
      {
        PlotOutsideCell(f, width, height, px, py, frag.value.depth, frag.value.color, x, y);
      }
    }
  }

  lemma FrameTransitive(f: Frame, g: Frame, h: Frame, width: nat, height: nat, b: Box)
    requires Sized(f, width, height) && Sized(g, width, height) && Sized(h, width, height)
    requires SameOutside(f, g, width, height, b) && SameOutside(g, h, width, height, b)
    requires NoFarther(f, g) && NoFarther(g, h)
    ensures SameOutside(f, h, width, height, b) && NoFarther(f, h)
  {
  }

  lemma {:induction false} RowUpToFrame(f: Frame, width: nat, height: nat, y: int, from: int, upto: int,
                                        shade: (int, int) -> Option<Fragment>, b: Box)
    requires Sized(f, width, height)
    requires b.minX <= from && upto <= b.maxX + 1 && b.minY <= y <= b.maxY
    ensures SameOutside(f, RowUpTo(f, width, height, y, from, upto, shade), width, height, b)
    ensures NoFarther(f, RowUpTo(f, width, height, y, from, upto, shade))
    decreases upto - from
  {
    if upto > from {
      var prev := RowUpTo(f, width, height, y, from, upto - 1, shade);
      RowUpToFrame(f, width, height, y, from, upto - 1, shade, b);
      PlotFragmentFrame(prev, width, height, upto - 1, y, shade(upto - 1, y), b);
      FrameTransitive(f, prev, RowUpTo(f, width, height, y, from, upto, shade), width, height, b);
    }
  }

  lemma {:induction false} BoxUpToFrame(f: Frame, width: nat, height: nat, b: Box, upto: int,
                                        shade: (int, int) -> Option<Fragment>)
    requires Sized(f, width, height)
    requires upto <= b.maxY + 1
    ensures SameOutside(f, BoxUpTo(f, width, height, b, upto, shade), width, height, b)
    ensures NoFarther(f, BoxUpTo(f, width, height, b, upto, shade))
    decreases upto - b.minY
  {
    if upto > b.minY {
      var prev := BoxUpTo(f, width, height, b, upto - 1, shade);
      BoxUpToFrame(f, width, height, b, upto - 1, shade);
      RowUpToFrame(prev, width, height, upto - 1, b.minX, b.maxX + 1, shade, b);
      FrameTransitive(f, prev, BoxUpTo(f, width, height, b, upto, shade), width, height, b);
    }
  }

  // ---- the Renderer object ----

  class Renderer {
    const width: nat
    const height: nat
    var framebuffer: array?<bv32>
    var zBuffer: array<real>

    /** Both buffers hold screenWidth * screenHeight cells. */
    ghost predicate Valid()
      reads this
    {
      && zBuffer.Length == width * height
      && (framebuffer != null ==> framebuffer.Length == width * height)
      && framebuffer as object? != zBuffer as object?
    }

    /** The buffers as a Frame value. */
    function Buffers(): (f: Frame)
      requires Valid() && framebuffer != null
      reads this, framebuffer, zBuffer
      ensures Sized(f, width, height)
    {
      Frame(framebuffer[..], zBuffer[..])
    }

    /** Renderer(width, height, title) without the SDL objects (lines 40-41):
        an uninitialised framebuffer and a depth buffer of zeros. */
    constructor (w: nat, h: nat)
      ensures width == w && height == h
      ensures Valid() && framebuffer != null
      ensures fresh(framebuffer) && fresh(zBuffer)
      ensures zBuffer[..] == seq(w * h, _ => 0.0)
    {
      width := w;
      height := h;
      framebuffer := new bv32[w * h];
      zBuffer := new real[w * h](_ => 0.0);
    }

    /** clear(color): the argument is ignored; both buffers are filled with
        the sky colour and FLT_MAX, unless the framebuffer is null or the
        screen is empty. */
    method Clear(color: bv32)
      requires Valid()
      modifies framebuffer, zBuffer
      ensures Valid()
      ensures framebuffer != null && width != 0 && height != 0 ==> Buffers() == Cleared(width, height)
      ensures framebuffer == null ==> zBuffer[..] == old(zBuffer[..])
      ensures framebuffer != null && (width == 0 || height == 0) ==> Buffers() == old(Buffers())
    {
      if framebuffer == null {
        return;
      }
      if width == 0 || height == 0 {
        return;
      }
      var fb := framebuffer;
      for k := 0 to fb.Length
        invariant forall j :: 0 <= j < k ==> fb[j] == SkyColor
      {
        fb[k] := SkyColor;
      }
      for k := 0 to zBuffer.Length
        invariant forall j :: 0 <= j < k ==> zBuffer[j] == FloatMax
        invariant forall j :: 0 <= j < fb.Length ==> fb[j] == SkyColor
      {
        zBuffer[k] := FloatMax;
      }
    }

    /** drawPixel(x, y, z, color). */
    method DrawPixel(x: int, y: int, z: real, color: bv32)
      requires Valid() && framebuffer != null
      modifies framebuffer, zBuffer
      ensures Valid() && framebuffer != null
      ensures Buffers() == Plot(old(Buffers()), width, height, x, y, z, color)
    {
      if 0 <= x < width && 0 <= y < height {
        PixelIndexInRange(width, height, x, y);
        var index := y * width + x;
        if z < zBuffer[index] {
          zBuffer[index] := z;
          framebuffer[index] := color;
        }
      }
    }

    /** The nested y/x loop of drawTriangle (lines 192-193) over a box, with
        the per-pixel edge and depth work abstracted as `shade`. */
    method DrawBox(b: Box, shade: (int, int) -> Option<Fragment>)
      requires Valid() && framebuffer != null
      modifies framebuffer, zBuffer
      ensures Valid() && framebuffer != null
      ensures Buffers() == BoxUpTo(old(Buffers()), width, height, b, b.maxY + 1, shade)
    {
      ghost var start := Buffers();
      var y := b.minY;
      while y <= b.maxY
        invariant Valid() && framebuffer != null
        invariant b.minY <= y <= Max(b.minY, b.maxY + 1)
        invariant Buffers() == BoxUpTo(start, width, height, b, y, shade)
        decreases b.maxY - y
      {
        ghost var rowStart := Buffers();
        var x := b.minX;
        while x <= b.maxX
          invariant Valid() && framebuffer != null
          invariant b.minX <= x <= Max(b.minX, b.maxX + 1)
          invariant Buffers() == RowUpTo(rowStart, width, height, y, b.minX, x, shade)
          decreases b.maxX - x
        {
          var frag := shade(x, y);
          if frag.Some? {
            DrawPixel(x, y, frag.value.depth, frag.value.color);
          }
          x := x + 1;
        }
        y := y + 1;
      }
    }
  }

  /** A box loop changes no cell outside the box, and never makes a depth
      farther. */
  lemma DrawBoxFrame(f: Frame, width: nat, height: nat, b: Box, shade: (int, int) -> Option<Fragment>)
    requires Sized(f, width, height)
    ensures var g := BoxUpTo(f, width, height, b, b.maxY + 1, shade);
      SameOutside(f, g, width, height, b) && NoFarther(f, g)
  {
    if b.maxY + 1 <= b.minY {
    } else {
      BoxUpToFrame(f, width, height, b, b.maxY + 1, shade);
    }
  }
}
