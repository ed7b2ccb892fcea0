/**
 * RGBA pixel buffers as a canvas's getImageData returns them, shared by the
 * two screenshot pages.
 */
module Raster {
  import opened Common

  /** An RGBA frame of w by h pixels, stored row by row. */
  datatype Image = Image(data: seq<Byte>, w: nat, h: nat) {
    predicate Valid() { |data| == w * h * 4 }
  }

  /** { x, y, w, h } in the frame's coordinates. */
  datatype Rect = Rect(x: int, y: int, w: int, h: int)

  lemma {:induction false} MulLe(a: nat, b: nat, c: nat)
    requires a <= b
    ensures a * c <= b * c
    decreases b - a
  {
    if a < b {
      MulLe(a + 1, b, c);
      assert (a + 1) * c == a * c + c;
    }
  }

  /** The four bytes of pixel (x, y) lie inside the buffer. */
  lemma PixelInBounds(w: nat, h: nat, y: int, x: int)
    requires 0 <= y < h && 0 <= x < w
    ensures 0 <= (y * w + x) * 4 && (y * w + x) * 4 + 3 < w * h * 4
  {
    MulLe(y + 1, h, w);
    assert (y + 1) * w == y * w + w;
    assert h * w == w * h;
  }
}
