/** The letterbox of src/detection/open_vocab_object_detector.py: an image is scaled
    into the model's canvas with padding, and model boxes are mapped back.  The
    resized side is rounded, so going there and back is not exact; the bounds say
    how far off it can be. */
module Letterbox {
  import opened Prelude
  import opened Geometry

  datatype Fit = Fit(ratio: real, resizedW: nat, resizedH: nat, left: nat, top: nat)

  function Ratio(canvasW: nat, canvasH: nat, imageW: nat, imageH: nat): (r: real)
    requires canvasW >= 1 && canvasH >= 1 && imageW >= 1 && imageH >= 1
    ensures r > 0.0
  {
    MinReal(canvasW as real / imageW as real, canvasH as real / imageH as real)
  }

  /** One side after scaling. */
  function Resized(side: nat, ratio: real): (r: nat)
    ensures r >= 1
  {
    Max(1, Round(side as real * ratio))
  }

  lemma ScaledSideFits(side: nat, canvas: nat, ratio: real)
    requires side >= 1 && canvas >= 1 && 0.0 < ratio <= canvas as real / side as real
    ensures 0.0 < side as real * ratio <= canvas as real
    ensures Resized(side, ratio) <= canvas
  {
    var q := canvas as real / side as real;
    assert side as real * ratio <= side as real * q == canvas as real;
    RoundBetweenIntegers(0, side as real * ratio, canvas);
  }

  lemma ScaledSideFills(side: nat, canvas: nat, ratio: real)
    requires side >= 1 && canvas >= 1 && ratio == canvas as real / side as real
    ensures Resized(side, ratio) == canvas
  {
    assert side as real * ratio == canvas as real;
    RoundBetweenIntegers(canvas, side as real * ratio, canvas);
  }

  /** The padding is the same on both sides, up to a pixel. */
  predicate Centred(f: Fit, canvasW: nat, canvasH: nat) {
    0 <= canvasW - f.resizedW - 2 * f.left <= 1 && 0 <= canvasH - f.resizedH - 2 * f.top <= 1
  }

  /** Both sides are scaled by the ratio, up to half a pixel and to no less than one. */
  predicate Proportional(f: Fit, imageW: nat, imageH: nat) {
    && (f.resizedW == 1 || Abs(f.resizedW as real - imageW as real * f.ratio) <= 0.5)
    && (f.resizedH == 1 || Abs(f.resizedH as real - imageH as real * f.ratio) <= 0.5)
  }

  /** The resized image and its padding fit the canvas, and one of the sides fills
      it completely. */
  function Place(canvasW: nat, canvasH: nat, imageW: nat, imageH: nat): (f: Fit)
    requires canvasW >= 1 && canvasH >= 1 && imageW >= 1 && imageH >= 1
    ensures f.ratio > 0.0 && f.resizedW >= 1 && f.resizedH >= 1
    ensures f.left + f.resizedW <= canvasW && f.top + f.resizedH <= canvasH
    ensures f.resizedW == canvasW || f.resizedH == canvasH
  {
    var ratio := Ratio(canvasW, canvasH, imageW, imageH);
    var w, h := Resized(imageW, ratio), Resized(imageH, ratio);
    ScaledSideFits(imageW, canvasW, ratio);
    ScaledSideFits(imageH, canvasH, ratio);
    assert w == canvasW || h == canvasH by {
      if ratio == canvasW as real / imageW as real {
        ScaledSideFills(imageW, canvasW, ratio);
      } else {
        ScaledSideFills(imageH, canvasH, ratio);
      }
    }
    Fit(ratio, w, h, (canvasW - w) / 2, (canvasH - h) / 2)
  }

  /** The ratio is the largest with which both sides fit. */
  ghost predicate FitsExactly(r: real, canvasW: nat, canvasH: nat, imageW: nat, imageH: nat) {
    && imageW as real * r <= canvasW as real && imageH as real * r <= canvasH as real
    && (imageW as real * r == canvasW as real || imageH as real * r == canvasH as real)
  }

  lemma RatioFitsExactly(canvasW: nat, canvasH: nat, imageW: nat, imageH: nat)
    requires canvasW >= 1 && canvasH >= 1 && imageW >= 1 && imageH >= 1
    ensures FitsExactly(Ratio(canvasW, canvasH, imageW, imageH), canvasW, canvasH, imageW, imageH)
  {
    var r := Ratio(canvasW, canvasH, imageW, imageH);
    ScaledSideFits(imageW, canvasW, r);
    ScaledSideFits(imageH, canvasH, r);
  }

  lemma ResizedIsProportional(side: nat, ratio: real)
    ensures Resized(side, ratio) == 1 || Abs(Resized(side, ratio) as real - side as real * ratio) <= 0.5
  {
  }

  lemma PlaceIsScaled(canvasW: nat, canvasH: nat, imageW: nat, imageH: nat)
    requires canvasW >= 1 && canvasH >= 1 && imageW >= 1 && imageH >= 1
    ensures var f := Place(canvasW, canvasH, imageW, imageH);
      && f.ratio == Ratio(canvasW, canvasH, imageW, imageH)
      && f.resizedW == Resized(imageW, f.ratio) && f.resizedH == Resized(imageH, f.ratio)
  {
  }

  lemma PlaceIsInMiddle(canvasW: nat, canvasH: nat, imageW: nat, imageH: nat)
    requires canvasW >= 1 && canvasH >= 1 && imageW >= 1 && imageH >= 1
    ensures Centred(Place(canvasW, canvasH, imageW, imageH), canvasW, canvasH)
  {
  }

  lemma ScaledIsProportional(f: Fit, imageW: nat, imageH: nat)
    requires f.resizedW == Resized(imageW, f.ratio) && f.resizedH == Resized(imageH, f.ratio)
    ensures Proportional(f, imageW, imageH)
  {
    ResizedIsProportional(imageW, f.ratio);
    ResizedIsProportional(imageH, f.ratio);
  }

  /** The image is scaled as far as it fits, in proportion, and stands in the middle. */
  lemma PlaceIsCentred(canvasW: nat, canvasH: nat, imageW: nat, imageH: nat)
    requires canvasW >= 1 && canvasH >= 1 && imageW >= 1 && imageH >= 1
    ensures FitsExactly(Place(canvasW, canvasH, imageW, imageH).ratio, canvasW, canvasH, imageW, imageH)
    ensures Proportional(Place(canvasW, canvasH, imageW, imageH), imageW, imageH)
    ensures Centred(Place(canvasW, canvasH, imageW, imageH), canvasW, canvasH)
  {
    RatioFitsExactly(canvasW, canvasH, imageW, imageH);
    PlaceIsScaled(canvasW, canvasH, imageW, imageH);
    ScaledIsProportional(Place(canvasW, canvasH, imageW, imageH), imageW, imageH);
    PlaceIsInMiddle(canvasW, canvasH, imageW, imageH);
  }

  // ---- one axis there and back ----

  /** Where resizing and padding put coordinate `x` of a side. */
  function Forward(x: real, side: nat, resized: nat, pad: nat): real
    requires side >= 1
  {
    x * resized as real / side as real + pad as real
  }

  /** The decoding of a canvas coordinate. */
  function Back(p: real, pad: nat, ratio: real): real
    requires ratio > 0.0
  {
    (p - pad as real) / ratio
  }

  /** The decoding as used: clamped to the image. */
  function Decode(p: real, pad: nat, ratio: real, side: nat): (r: real)
    requires ratio > 0.0
    ensures 0.0 <= r <= side as real
  {
    MaxReal(0.0, MinReal(side as real, Back(p, pad, ratio)))
  }

  lemma MulDiv(a: real, b: real)
    requires b != 0.0
    ensures a / b * b == a
  {
  }

  lemma TimesPreservesOrder(a: real, b: real, s: real)
    requires s > 0.0
    ensures a > b ==> a * s > b * s
  {
    if a > b {
      ProductPositive(a - b, s);
      assert (a - b) * s == a * s - b * s;
    }
  }

  lemma DivBound(a: real, b: real, r: real)
    requires r > 0.0 && a * r <= b
    ensures a <= b / r
  {
    MulDiv(b, r);
    TimesPreservesOrder(a, b / r, r);
  }

  lemma DivBelow(a: real, b: real, r: real)
    requires r > 0.0 && a * r > b
    ensures a > b / r
  {
    MulDiv(b, r);
    TimesPreservesOrder(b / r, a, r);
  }

  lemma CancelFactor(a: real, b: real, s: real)
    requires s > 0.0 && a * s <= b * s
    ensures a <= b
  {
    TimesPreservesOrder(a, b, s);
  }

  lemma ProductNonNegative(a: real, b: real)
    requires a >= 0.0 && b >= 0.0
    ensures a * b >= 0.0
  {
  }

  /** There and back multiplies by the rounded side over the exact scaled side. */
  lemma ThereAndBack(x: real, side: nat, resized: nat, pad: nat, ratio: real)
    requires side >= 1 && ratio > 0.0
    ensures Back(Forward(x, side, resized, pad), pad, ratio) * (side as real * ratio) == x * resized as real
  {
    var m := x * resized as real / side as real;
    var y := Back(Forward(x, side, resized, pad), pad, ratio);
    MulDiv(x * resized as real, side as real);
    assert y == m / ratio;
    MulDiv(m, ratio);
    assert y * (side as real * ratio) == (y * ratio) * side as real;
  }

  /** The scaled error is the rounding error times `x` over the side. */
  lemma ScaledError(x: real, side: nat, resized: nat, pad: nat, ratio: real)
    requires side >= 1 && ratio > 0.0
    ensures var y := Back(Forward(x, side, resized, pad), pad, ratio);
      (y - x) * ratio * side as real == x * (resized as real - side as real * ratio)
  {
    ThereAndBack(x, side, resized, pad, ratio);
    var y := Back(Forward(x, side, resized, pad), pad, ratio);
    assert (y - x) * ratio * side as real == y * (side as real * ratio) - x * (side as real * ratio);
  }

  lemma ProductBound(x: real, side: real, e: real)
    requires 0.0 <= x <= side && Abs(e) <= 0.5
    ensures Abs(x * e) <= 0.5 * side
  {
    var a := Abs(e);
    assert x * a <= x * 0.5;
    assert Abs(x * e) == x * a;
  }

  lemma ErrorWithin(y: real, x: real, side: real, ratio: real)
    requires side > 0.0 && ratio > 0.0 && Abs((y - x) * ratio * side) <= 0.5 * side
    ensures Abs(y - x) <= 0.5 / ratio
  {
    var d := Abs(y - x);
    var z := (d * ratio) * side;
    assert z == (y - x) * ratio * side || z == -((y - x) * ratio * side);
    CancelFactor(d * ratio, 0.5, side);
    DivBound(d, 0.5, ratio);
  }

  lemma ErrorBound(x: real, side: nat, pad: nat, ratio: real)
    requires side >= 1 && ratio > 0.0 && side as real * ratio >= 0.5 && 0.0 <= x <= side as real
    ensures Abs(Back(Forward(x, side, Resized(side, ratio), pad), pad, ratio) - x) <= 0.5 / ratio
  {
    var resized, t := Resized(side, ratio), side as real * ratio;
    var y := Back(Forward(x, side, resized, pad), pad, ratio);
    ScaledError(x, side, resized, pad, ratio);
    ProductBound(x, side as real, resized as real - t);
    ErrorWithin(y, x, side as real, ratio);
  }

  ghost predicate BackWithinHalfPixel(side: nat, pad: nat, ratio: real)
    requires side >= 1 && ratio > 0.0
  {
    forall x :: 0.0 <= x <= side as real ==>
      Abs(Back(Forward(x, side, Resized(side, ratio), pad), pad, ratio) - x) <= 0.5 / ratio
  }

  lemma TinySide(side: nat, ratio: real)
    requires side >= 1 && ratio > 0.0 && side as real * ratio < 0.5
    ensures Resized(side, ratio) == 1
  {
    ProductPositive(side as real, ratio);
    var r := Round(side as real * ratio);
    assert -1.0 < r as real < 1.0;
  }

  lemma FarOff(d: real, e: real, side: real, ratio: real)
    requires side > 0.0 && ratio > 0.0 && e > 0.5 && d * ratio * side == side * e
    ensures d > 0.5 / ratio
  {
    CancelFactor(e, d * ratio, side);
    DivBelow(d, 0.5, ratio);
  }

  /** A side that shrinks below half a canvas pixel is stretched to a whole one, and
      its far end comes back too far out. */
  lemma FarEndOff(side: nat, pad: nat, ratio: real)
    requires side >= 1 && ratio > 0.0 && side as real * ratio < 0.5
    ensures !BackWithinHalfPixel(side, pad, ratio)
  {
    var x := side as real;
    var y := Back(Forward(x, side, Resized(side, ratio), pad), pad, ratio);
    var e := Resized(side, ratio) as real - x * ratio;
    TinySide(side, ratio);
    ScaledError(x, side, Resized(side, ratio), pad, ratio);
    FarOff(y - x, e, x, ratio);
  }

  /** Without the clamp, every point comes back within half a canvas pixel if and
      only if the scaled side is at least half a pixel long. */
  lemma BackWithinHalfPixelIff(side: nat, pad: nat, ratio: real)
    requires side >= 1 && ratio > 0.0
    ensures BackWithinHalfPixel(side, pad, ratio) <==> side as real * ratio >= 0.5
  {
    if side as real * ratio >= 0.5 {
      forall x | 0.0 <= x <= side as real
        ensures Abs(Back(Forward(x, side, Resized(side, ratio), pad), pad, ratio) - x) <= 0.5 / ratio
      {
        ErrorBound(x, side, pad, ratio);
      }
    } else {
      FarEndOff(side, pad, ratio);
    }
  }

  lemma ClampedCloser(p: real, x: real, side: nat, pad: nat, ratio: real, bound: real)
    requires ratio > 0.0 && 0.0 <= x <= side as real && Abs(Back(p, pad, ratio) - x) <= bound
    ensures Abs(Decode(p, pad, ratio, side) - x) <= bound
  {
  }

  lemma ScaledBelow(u: real, side: real, ratio: real, t: real)
    requires ratio > 0.0 && u <= side && t == side * ratio
    ensures u * ratio <= t
  {
    ProductNonNegative(side - u, ratio);
    assert (side - u) * ratio == side * ratio - u * ratio;
  }

  /** On a side stretched to one pixel the clamp keeps the error below half a
      pixel. */
  lemma StretchedError(x: real, y: real, side: real, ratio: real, t: real)
    requires ratio > 0.0 && t == side * ratio && 0.0 < t < 0.5
    requires 0.0 <= x <= side && y * t == x
    ensures Abs(MaxReal(0.0, MinReal(side, y)) - x) <= 0.5 / ratio
  {
    var z := MaxReal(0.0, MinReal(side, y));
    TimesPreservesOrder(0.0, y, t);
    ProductNonNegative(y, 1.0 - t);
    assert y * (1.0 - t) == y - x;
    ScaledBelow(z - x, side, ratio, t);
    DivBound(z - x, 0.5, ratio);
  }

  lemma TinyDecode(p: real, x: real, side: nat, pad: nat, ratio: real, t: real)
    requires ratio > 0.0 && t == side as real * ratio && 0.0 < t < 0.5 && 0.0 <= x <= side as real
    requires Back(p, pad, ratio) * t == x
    ensures Abs(Decode(p, pad, ratio, side) - x) <= 0.5 / ratio
  {
    StretchedError(x, Back(p, pad, ratio), side as real, ratio, t);
  }

  /** As decoded, clamped to the image, every point comes back within half a canvas
      pixel, for every image and canvas size. */
  lemma DecodeWithinHalfPixel(x: real, side: nat, pad: nat, ratio: real)
    requires side >= 1 && ratio > 0.0 && 0.0 <= x <= side as real
    ensures Abs(Decode(Forward(x, side, Resized(side, ratio), pad), pad, ratio, side) - x) <= 0.5 / ratio
  {
    if side as real * ratio >= 0.5 {
      ErrorBound(x, side, pad, ratio);
      ClampedCloser(Forward(x, side, Resized(side, ratio), pad), x, side, pad, ratio, 0.5 / ratio);
    } else {
      TinySide(side, ratio);
      ThereAndBack(x, side, 1, pad, ratio);
      ProductPositive(side as real, ratio);
      TinyDecode(Forward(x, side, 1, pad), x, side, pad, ratio, side as real * ratio);
    }
  }

  // ---- boxes ----

  /** A model box: centre and size in canvas coordinates. */
  datatype Anchor = Anchor(cx: real, cy: real, width: real, height: real)

  function DecodeBox(a: Anchor, f: Fit, imageW: nat, imageH: nat): (b: Box)
    requires f.ratio > 0.0
    ensures 0.0 <= b.x1 <= imageW as real && 0.0 <= b.x2 <= imageW as real
    ensures 0.0 <= b.y1 <= imageH as real && 0.0 <= b.y2 <= imageH as real
  {
    Box(Decode(a.cx - a.width / 2.0, f.left, f.ratio, imageW),
        Decode(a.cy - a.height / 2.0, f.top, f.ratio, imageH),
        Decode(a.cx + a.width / 2.0, f.left, f.ratio, imageW),
        Decode(a.cy + a.height / 2.0, f.top, f.ratio, imageH))
  }

  /** The anchor a perfect model would report for an image box. */
  function EncodeBox(b: Box, f: Fit, imageW: nat, imageH: nat): Anchor
    requires imageW >= 1 && imageH >= 1
  {
    var x1, x2 := Forward(b.x1, imageW, f.resizedW, f.left), Forward(b.x2, imageW, f.resizedW, f.left);
    var y1, y2 := Forward(b.y1, imageH, f.resizedH, f.top), Forward(b.y2, imageH, f.resizedH, f.top);
    Anchor((x1 + x2) / 2.0, (y1 + y2) / 2.0, x2 - x1, y2 - y1)
  }

  /** `edge` is where canvas coordinate `p` lies in the image, or the border it is beyond. */
  predicate EdgeOf(edge: real, p: real, pad: nat, ratio: real, side: nat) {
    && (0.0 < edge < side as real ==> edge * ratio + pad as real == p)
    && (edge <= 0.0 < side as real ==> edge == 0.0 && p <= pad as real)
    && (0.0 < edge && edge >= side as real ==> edge == side as real && edge * ratio + pad as real <= p)
  }

  /** The box is the anchor's, mapped back into the image and cut off at its borders. */
  predicate BoxOf(b: Box, a: Anchor, f: Fit, imageW: nat, imageH: nat) {
    && EdgeOf(b.x1, a.cx - a.width / 2.0, f.left, f.ratio, imageW)
    && EdgeOf(b.x2, a.cx + a.width / 2.0, f.left, f.ratio, imageW)
    && EdgeOf(b.y1, a.cy - a.height / 2.0, f.top, f.ratio, imageH)
    && EdgeOf(b.y2, a.cy + a.height / 2.0, f.top, f.ratio, imageH)
  }

  lemma OneEdge(e: real, e': real, p: real, pad: nat, ratio: real, side: nat)
    requires ratio > 0.0 && side >= 1 && 0.0 <= e < e' <= side as real
    ensures !(EdgeOf(e, p, pad, ratio, side) && EdgeOf(e', p, pad, ratio, side))
  {
    TimesPreservesOrder(e', e, ratio);
    if e == 0.0 {
      ProductPositive(e', ratio);
    }
  }

  /** An anchor stands for only one box in the image. */
  lemma OneBoxOf(b: Box, b': Box, a: Anchor, f: Fit, imageW: nat, imageH: nat)
    requires f.ratio > 0.0 && imageW >= 1 && imageH >= 1
    requires BoxOf(b, a, f, imageW, imageH) && BoxOf(b', a, f, imageW, imageH)
    ensures b == b'
  {
    forall e: real, e': real, p: real, pad: nat, side: nat
      | side >= 1 && EdgeOf(e, p, pad, f.ratio, side) && EdgeOf(e', p, pad, f.ratio, side)
      ensures e == e'
    {
      if e < e' {
        OneEdge(e, e', p, pad, f.ratio, side);
      } else if e' < e {
        OneEdge(e', e, p, pad, f.ratio, side);
      }
    }
  }

  lemma DecodeIsEdge(p: real, pad: nat, ratio: real, side: nat)
    requires ratio > 0.0 && side >= 1
    ensures EdgeOf(Decode(p, pad, ratio, side), p, pad, ratio, side)
  {
    var q := Back(p, pad, ratio);
    MulDiv(p - pad as real, ratio);
    if q <= 0.0 {
      TimesPreservesOrder(p - pad as real, 0.0, 1.0);
      ProductSign(q, ratio);
    }
    if q >= side as real {
      ProductSign(side as real - q, ratio);
      assert (side as real - q) * ratio == side as real * ratio - q * ratio;
    }
  }

  lemma ProductSign(x: real, r: real)
    requires r > 0.0 && x <= 0.0
    ensures x * r <= 0.0
  {
    if x < 0.0 {
      ProductPositive(-x, r);
      assert -x * r == -(x * r);
    }
  }

  lemma DecodeBoxIsBox(a: Anchor, f: Fit, imageW: nat, imageH: nat)
    requires f.ratio > 0.0 && imageW >= 1 && imageH >= 1
    ensures BoxOf(DecodeBox(a, f, imageW, imageH), a, f, imageW, imageH)
  {
    DecodeIsEdge(a.cx - a.width / 2.0, f.left, f.ratio, imageW);
    DecodeIsEdge(a.cx + a.width / 2.0, f.left, f.ratio, imageW);
    DecodeIsEdge(a.cy - a.height / 2.0, f.top, f.ratio, imageH);
    DecodeIsEdge(a.cy + a.height / 2.0, f.top, f.ratio, imageH);
  }

  predicate InImage(b: Box, imageW: nat, imageH: nat) {
    0.0 <= b.x1 <= b.x2 <= imageW as real && 0.0 <= b.y1 <= b.y2 <= imageH as real
  }

  /** Every edge of a box survives the trip through the model's canvas up to half a
      canvas pixel. */
  lemma BoxRoundTrip(b: Box, canvasW: nat, canvasH: nat, imageW: nat, imageH: nat)
    requires canvasW >= 1 && canvasH >= 1 && imageW >= 1 && imageH >= 1 && InImage(b, imageW, imageH)
    ensures var f := Place(canvasW, canvasH, imageW, imageH);
      var b' := DecodeBox(EncodeBox(b, f, imageW, imageH), f, imageW, imageH);
      && Abs(b'.x1 - b.x1) <= 0.5 / f.ratio && Abs(b'.x2 - b.x2) <= 0.5 / f.ratio
      && Abs(b'.y1 - b.y1) <= 0.5 / f.ratio && Abs(b'.y2 - b.y2) <= 0.5 / f.ratio
  {
    var f := Place(canvasW, canvasH, imageW, imageH);
    var a := EncodeBox(b, f, imageW, imageH);
    assert a.cx - a.width / 2.0 == Forward(b.x1, imageW, f.resizedW, f.left);
    assert a.cx + a.width / 2.0 == Forward(b.x2, imageW, f.resizedW, f.left);
    assert a.cy - a.height / 2.0 == Forward(b.y1, imageH, f.resizedH, f.top);
    assert a.cy + a.height / 2.0 == Forward(b.y2, imageH, f.resizedH, f.top);
    DecodeWithinHalfPixel(b.x1, imageW, f.left, f.ratio);
    DecodeWithinHalfPixel(b.x2, imageW, f.left, f.ratio);
    DecodeWithinHalfPixel(b.y1, imageH, f.top, f.ratio);
    DecodeWithinHalfPixel(b.y2, imageH, f.top, f.ratio);
  }
}
