/**
 * The size computation of the photo downscaler: one ratio for both
 * dimensions, never above 1, and rounding to whole pixels.
 */
module Image {

  datatype Result<+T, +E> = Success(value: T) | Failure(error: E)

  function Max(a: int, b: int): int { if a >= b then a else b }

  function Min(a: real, b: real): real { if a <= b then a else b }

  /** Math.round: halves go up. */
  function Round(x: real): int {
    (x + 0.5).Floor
  }

  lemma RoundMonotone(x: real, y: real)
    requires x <= y
    ensures Round(x) <= Round(y)
  {
  }

  lemma RoundWhole(n: int)
    ensures Round(n as real) == n
  {
  }

  /**
   * min(1, maxSize / max(w, h)). An image with no pixels has nothing to
   * scale; its ratio is taken as 1, which leaves its 0 x 0 size alone.
   */
  function Ratio(w: nat, h: nat, maxSize: int): (r: real)
    ensures r <= 1.0
    ensures Max(w, h) > 0 && Max(w, h) <= maxSize ==> r == 1.0
    ensures Max(w, h) > 0 && Max(w, h) > maxSize ==> r * Max(w, h) as real == maxSize as real
  {
    var longEdge := Max(w, h);
    if longEdge == 0 then 1.0
    else
      var scale := maxSize as real / longEdge as real;
      assert scale * longEdge as real == maxSize as real;
      Min(1.0, scale)
  }

  datatype Size = Size(width: int, height: int)

  /** One side scaled by the ratio and rounded to whole pixels. */
  function Scale(n: nat, ratio: real): int {
    Round(n as real * ratio)
  }

  /** The canvas size for an image of w x h pixels. */
  function TargetSize(w: nat, h: nat, maxSize: int): (r: Size)
    ensures r.width <= w && r.height <= h
  {
    var ratio := Ratio(w, h, maxSize);
    NotEnlarged(w, ratio);
    NotEnlarged(h, ratio);
    Size(Scale(w, ratio), Scale(h, ratio))
  }

  lemma NotEnlarged(n: nat, ratio: real)
    requires ratio <= 1.0
    ensures Scale(n, ratio) <= n
  {
    assert n as real * ratio <= n as real * 1.0;
    RoundMonotone(n as real * ratio, n as real);
    RoundWhole(n);
  }

  /** An image whose long edge fits keeps its exact size. */
  lemma SmallImageKeepsSize(w: nat, h: nat, maxSize: int)
    requires Max(w, h) <= maxSize
    ensures TargetSize(w, h, maxSize) == Size(w, h)
  {
    RoundWhole(w);
    RoundWhole(h);
  }

  /** A larger image gets its long edge set to the bound. */
  lemma LongEdgeClamped(w: nat, h: nat, maxSize: int)
    requires Max(w, h) > 0 && Max(w, h) > maxSize
    ensures w >= h ==> TargetSize(w, h, maxSize).width == maxSize
    ensures h >= w ==> TargetSize(w, h, maxSize).height == maxSize
  {
    RoundWhole(maxSize);
  }

  /** Math.round moves a value by at most one half. */
  lemma RoundError(x: real)
    ensures -0.5 < Round(x) as real - x <= 0.5
  {
  }

  /** An error of at most one half, scaled by a length, is at most half that length. */
  lemma ScaledError(e: real, n: real)
    requires -0.5 < e <= 0.5 && n >= 0.0
    ensures -0.5 * n <= e * n <= 0.5 * n
  {
  }

  /**
   * Two sides scaled by one ratio and each then moved by at most one half:
   * their cross product differs by at most half the sum of the original sides.
   */
  lemma CrossError(a: real, b: real, w: real, h: real, ratio: real)
    requires w >= 0.0 && h >= 0.0
    requires -0.5 < a - w * ratio <= 0.5 && -0.5 < b - h * ratio <= 0.5
    ensures -(w + h) / 2.0 <= a * h - b * w <= (w + h) / 2.0
  {
    var ew := a - w * ratio;
    var eh := b - h * ratio;
    ScaledError(ew, h);
    ScaledError(eh, w);
    assert a * h - b * w == ew * h - eh * w;
  }

  /** The cross product of a size against w x h is off by at most half of w + h. */
  predicate AspectWithin(t: Size, w: nat, h: nat) {
    var skew := t.width as real * h as real - t.height as real * w as real;
    -(w as real + h as real) / 2.0 <= skew <= (w as real + h as real) / 2.0
  }

  /** Scaling both sides by one ratio and rounding each keeps the aspect within the bound. */
  lemma RoundedAspect(w: nat, h: nat, ratio: real, t: Size)
    requires t == Size(Scale(w, ratio), Scale(h, ratio))
    ensures AspectWithin(t, w, h)
  {
    RoundError(w as real * ratio);
    RoundError(h as real * ratio);
    CrossError(Scale(w, ratio) as real, Scale(h, ratio) as real, w as real, h as real, ratio);
  }

  /**
   * Both sides are scaled by the same ratio, so the computed size keeps the
   * image's aspect up to the rounding of each side to whole pixels.
   */
  lemma AspectKept(w: nat, h: nat, maxSize: int)
    ensures AspectWithin(TargetSize(w, h, maxSize), w, h)
  {
    RoundedAspect(w, h, Ratio(w, h, maxSize), TargetSize(w, h, maxSize));
  }

  /** 2000 x 1000 with a bound of 800 becomes 800 x 400. */
  lemma LandscapeExample()
    ensures TargetSize(2000, 1000, 800) == Size(800, 400)
  {
    assert Ratio(2000, 1000, 800) == 0.4;
    RoundWhole(800);
    RoundWhole(400);
  }

  /** A drawing surface; a new one is 300 x 150 pixels. */
  class Canvas {
    var width: int
    var height: int

    constructor ()
      ensures width == 300 && height == 150
    {
      width := 300;
      height := 150;
    }
  }

  const NoContext := "Could not create canvas context"

  /**
   * createCanvas: fails before any size is computed when no 2D context is
   * available, otherwise sizes a new canvas for the image.
   */
  method CreateCanvas(hasContext: bool, imgWidth: nat, imgHeight: nat, maxSize: int)
    returns (r: Result<Canvas, string>)
    ensures !hasContext <==> r == Failure(NoContext)
    ensures hasContext ==> r.Success?
    ensures r.Success? ==> fresh(r.value)
    ensures r.Success? ==> Size(r.value.width, r.value.height) == TargetSize(imgWidth, imgHeight, maxSize)
  {
    var canvas := new Canvas();
    if !hasContext {
      return Failure(NoContext);
    }
    var ratio := Ratio(imgWidth, imgHeight, maxSize);
    canvas.width := Scale(imgWidth, ratio);
    canvas.height := Scale(imgHeight, ratio);
    return Success(canvas);
  }
}
