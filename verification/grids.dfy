/** Row-major addressing of a width x height grid, shared by the frame
    buffers of engine/src/renderer/renderer.cpp and the texel array of
    engine/src/assets/texture.cpp. */
module Grids {
  /** The cell of pixel (x, y) in a row-major buffer `width` cells wide:
      `y * screenWidth + x` in drawPixel, `y * texWidth + x` in sample. */
  function PixelIndex(width: int, x: int, y: int): int {
    y * width + x
  }

  /** 0 <= x < width and 0 <= y < height. */
  predicate InBounds(width: int, height: int, x: int, y: int) {
    0 <= x < width && 0 <= y < height
  }

  lemma PixelIndexInRange(width: nat, height: nat, x: int, y: int)
    requires InBounds(width, height, x, y)
    ensures 0 <= PixelIndex(width, x, y) < width * height
  {
    assert y * width <= (height - 1) * width by {
      assert height - 1 - y >= 0;
      assert (height - 1 - y) * width >= 0;
    }
    assert (height - 1) * width == height * width - width;
  }

  /** The cell of an in-bounds pixel. */
  function Cell(width: nat, height: nat, x: int, y: int): (i: nat)
    requires InBounds(width, height, x, y)
    ensures i == PixelIndex(width, x, y) && i < width * height
  {
    PixelIndexInRange(width, height, x, y);
    y * width + x
  }

  /** Distinct in-bounds pixels have distinct cells. */
  lemma PixelIndexInjective(width: nat, height: nat, x1: int, y1: int, x2: int, y2: int)
    requires InBounds(width, height, x1, y1) && InBounds(width, height, x2, y2)
    requires PixelIndex(width, x1, y1) == PixelIndex(width, x2, y2)
    ensures x1 == x2 && y1 == y2
  {
    assert (y2 - y1) * width == x1 - x2;
    MultipleBound(y2 - y1, width);
  }

  /** A nonzero multiple of w is at least w away from 0. */
  lemma {:induction false} MultipleBound(d: int, w: int)
    requires w >= 0
    ensures d == 0 || d * w >= w || d * w <= -w
    decreases if d < 0 then -d else d
  {
    if d > 1 {
      MultipleBound(d - 1, w);
      assert d * w == (d - 1) * w + w;
    } else if d < -1 {
      MultipleBound(d + 1, w);
      assert d * w == (d + 1) * w - w;
    }
  }
}
