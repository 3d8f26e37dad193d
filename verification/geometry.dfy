/** Rectangles in pixel (or grid-cell) coordinates and in percentages of the image. */
module Geometry {
  import opened Reals

  /** An integer rectangle `(x, y, w, h)` as returned by `cv2.boundingRect` or a face detector. */
  datatype Rect = Rect(x: int, y: int, w: int, h: int)

  /** A rectangle as percentages of the image's width and height (the `bbox` list `[x, y, w, h]`). */
  datatype PctRect = PctRect(x: real, y: real, w: real, h: real)

  /** The rectangle lies inside a `width` x `height` image. */
  predicate Inside(r: Rect, width: int, height: int) {
    0 <= r.x && 0 <= r.y && 0 <= r.w && 0 <= r.h && r.x + r.w <= width && r.y + r.h <= height
  }

  /** The percentage rectangle lies inside the image: the clipping invariant of a box. */
  predicate PctInside(p: PctRect) {
    0.0 <= p.x && 0.0 <= p.y && 0.0 <= p.w && 0.0 <= p.h && p.x + p.w <= 100.0 && p.y + p.h <= 100.0
  }

  /** `(v / dim) * 100` in exact arithmetic. */
  function Percent(v: int, dim: int): real
    requires dim != 0
  {
    (v as real / dim as real) * 100.0
  }

  lemma PercentBounds(a: int, b: int, dim: int)
    requires dim > 0 && 0 <= a && 0 <= b && a + b <= dim
    ensures 0.0 <= Percent(a, dim) && 0.0 <= Percent(b, dim)
    ensures Percent(a, dim) + Percent(b, dim) <= 100.0
  {
    var d := dim as real;
    assert Percent(a, dim) + Percent(b, dim) == ((a + b) as real / d) * 100.0;
    assert (a + b) as real / d <= 1.0;
  }

  /** Pixel rectangle to percentages of a `width` x `height` image. */
  function ToPercent(r: Rect, width: int, height: int): (p: PctRect)
    requires width != 0 && height != 0
    ensures width > 0 && height > 0 && Inside(r, width, height) ==> PctInside(p)
  {
    var p := PctRect(Percent(r.x, width), Percent(r.y, height), Percent(r.w, width), Percent(r.h, height));
    if width > 0 && height > 0 && Inside(r, width, height) then
      PercentBounds(r.x, r.w, width);
      PercentBounds(r.y, r.h, height);
      p
    else p
  }

  /** `int((p / 100) * dim)`: percentage back to a pixel coordinate, truncating toward zero. */
  function ToPixel(p: real, dim: int): int {
    Trunc((p / 100.0) * dim as real)
  }

  /** In exact arithmetic, pixel -> percent -> pixel gives back the original coordinate. */
  lemma PixelRoundTrip(v: int, dim: int)
    requires dim != 0
    ensures ToPixel(Percent(v, dim), dim) == v
  {
    var d := dim as real;
    assert (Percent(v, dim) / 100.0) * d == v as real;
    TruncOfInt(v);
  }
}
