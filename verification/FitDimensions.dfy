/** Fitting an image into a bounding box while keeping its aspect ratio, in exact arithmetic. */
module FitDimensions {
  import opened RealMath

  function Min(x: real, y: real): real { if x <= y then x else y }

  function AtLeastOne(n: int): int { if n >= 1 then n else 1 }

  /** std::round: to the nearest integer, halves away from zero. */
  function Round(x: real): int {
    if x >= 0.0 then (x + 0.5).Floor else -(0.5 - x).Floor
  }

  function Scale(srcW: int, srcH: int, maxW: int, maxH: int): real
    requires srcW > 0 && srcH > 0
  {
    Min(Div(maxW as real, srcW as real), Div(maxH as real, srcH as real))
  }

  function Fit(srcW: int, srcH: int, maxW: int, maxH: int): (int, int)
    requires srcW > 0 && srcH > 0
  {
    if srcW <= maxW && srcH <= maxH then (srcW, srcH)
    else
      var scale := Scale(srcW, srcH, maxW, maxH);
      (AtLeastOne(Round(Mul(srcW as real, scale))), AtLeastOne(Round(Mul(srcH as real, scale))))
  }

  /** A positive side scaled into at most `limit` is rounded to at most `limit`, and by less than one pixel. */
  lemma RoundedSide(x: real, limit: int)
    requires 0.0 < x <= limit as real
    ensures 1 <= AtLeastOne(Round(x)) <= limit
    ensures -1.0 < AtLeastOne(Round(x)) as real - x < 1.0
    ensures x == limit as real ==> AtLeastOne(Round(x)) == limit
  {
  }

  /** The factor is positive, keeps both sides in the box, meets the box on one side, and shrinks if it must. */
  lemma ScaleFits(srcW: int, srcH: int, maxW: int, maxH: int)
    requires srcW > 0 && srcH > 0 && maxW > 0 && maxH > 0
    ensures
      var scale := Scale(srcW, srcH, maxW, maxH);
      var w, h := Mul(srcW as real, scale), Mul(srcH as real, scale);
      && 0.0 < w <= maxW as real && 0.0 < h <= maxH as real
      && (w == maxW as real || h == maxH as real)
      && (srcW > maxW || srcH > maxH ==> w <= srcW as real && h <= srcH as real)
  {
    hide Mul, Div;
    var sw, sh, mw, mh := srcW as real, srcH as real, maxW as real, maxH as real;
    var rw, rh := Div(mw, sw), Div(mh, sh);
    var scale := Min(rw, rh);
    DivPositive(sw, mw);
    DivPositive(sh, mh);
    MulDiv(sw, mw);
    MulDiv(sh, mh);
    MulMonotone(sw, scale, rw);
    MulMonotone(sh, scale, rh);
    MulUnits(sw);
    MulUnits(sh);
    MulStrict(sw, 0.0, scale);
    MulStrict(sh, 0.0, scale);
    if srcW > maxW || srcH > maxH {
      if srcW > maxW { DivAtMostOne(sw, mw); } else { DivAtMostOne(sh, mh); }
      MulMonotone(sw, scale, 1.0);
      MulMonotone(sh, scale, 1.0);
    }
  }

  /**
    For positive inputs the result has sides of at least 1, fits the box and never exceeds the source;
    an image that fits already stays as it is.
   */
  lemma FitsBox(srcW: int, srcH: int, maxW: int, maxH: int)
    requires srcW > 0 && srcH > 0 && maxW > 0 && maxH > 0
    ensures
      var (w, h) := Fit(srcW, srcH, maxW, maxH);
      && 1 <= w <= maxW && 1 <= h <= maxH && w <= srcW && h <= srcH
      && (srcW <= maxW && srcH <= maxH ==> w == srcW && h == srcH)
  {
    if !(srcW <= maxW && srcH <= maxH) {
      hide Scale, Round, AtLeastOne, Mul;
      var scale := Scale(srcW, srcH, maxW, maxH);
      ScaleFits(srcW, srcH, maxW, maxH);
      RoundedSide(Mul(srcW as real, scale), maxW);
      RoundedSide(Mul(srcH as real, scale), maxH);
      RoundedSide(Mul(srcW as real, scale), srcW);
      RoundedSide(Mul(srcH as real, scale), srcH);
    }
  }

  /** A rounded side is the nearest integer, halves up, and at least 1. */
  lemma NearestSide(x: real, side: int, limit: int, n: int)
    requires 0.0 <= x && side > 0 && n == AtLeastOne(Round(x)) && Mul(side as real, x) == limit as real
    ensures (n == 1 && 2 * limit < side) || 2 * side * n - side <= 2 * limit < 2 * side * n + side
  {
    var k := Round(x);
    assert k as real <= x + 0.5 < k as real + 1.0;
    MulMonotone(side as real, k as real, x + 0.5);
    MulStrict(side as real, x + 0.5, k as real + 1.0);
    assert Mul(side as real, x + 0.5) == Mul(side as real, x) + 0.5 * side as real;
    assert Mul(side as real, k as real) == (side * k) as real;
    assert Mul(side as real, k as real + 1.0) == (side * k) as real + side as real;
    assert 2 * (side * k) <= 2 * limit + side < 2 * (side * k) + 2 * side;
    assert 2 * side * k == 2 * (side * k);
    if k < 1 {
      NonPositiveProduct(side, k);
    }
  }

  lemma NonPositiveProduct(side: int, k: int)
    requires side > 0 && k < 1
    ensures side * k <= 0
  {
  }

  /** Which ratio is the smaller, in integers. */
  lemma SmallerRatio(srcW: int, srcH: int, maxW: int, maxH: int)
    requires srcW > 0 && srcH > 0
    ensures Div(maxW as real, srcW as real) <= Div(maxH as real, srcH as real) <==> maxW * srcH <= maxH * srcW
  {
    hide Mul, Div;
    var w, h, a, b := srcW as real, srcH as real, Div(maxW as real, srcW as real), Div(maxH as real, srcH as real);
    MulDiv(w, maxW as real);
    MulDiv(h, maxH as real);
    var wh := Mul(w, h);
    CrossMultiply(srcW, srcH, maxW, a);
    CrossMultiply(srcH, srcW, maxH, b);
    MulCommutes(w, h);
    ProductPositive(w, h);
    if a <= b {
      MulMonotone(wh, a, b);
    } else {
      MulStrict(wh, b, a);
    }
  }

  lemma ProductPositive(a: real, b: real)
    requires a > 0.0 && b > 0.0
    ensures Mul(a, b) > 0.0
  {
  }

  lemma CrossMultiply(side: int, other: int, limit: int, ratio: real)
    requires Mul(side as real, ratio) == limit as real
    ensures Mul(Mul(side as real, other as real), ratio) == (limit * other) as real
  {
    assert Mul(Mul(side as real, other as real), ratio) == Mul(Mul(side as real, ratio), other as real);
  }

  /**
    When the image shrinks, the side with the smaller ratio to its limit meets that limit exactly, and
    the other is the integer nearest to what the aspect ratio asks for, halves up, but at least 1.
   */
  lemma KeepsAspectRatio(srcW: int, srcH: int, maxW: int, maxH: int)
    requires srcW > 0 && srcH > 0 && maxW > 0 && maxH > 0
    requires srcW > maxW || srcH > maxH
    ensures
      var (w, h) := Fit(srcW, srcH, maxW, maxH);
      if maxW * srcH <= maxH * srcW then
        w == maxW
        && ((h == 1 && 2 * (srcH * maxW) < srcW)
            || 2 * srcW * h - srcW <= 2 * (srcH * maxW) < 2 * srcW * h + srcW)
      else
        h == maxH
        && ((w == 1 && 2 * (srcW * maxH) < srcH)
            || 2 * srcH * w - srcH <= 2 * (srcW * maxH) < 2 * srcH * w + srcH)
  {
    var rw, rh := Div(maxW as real, srcW as real), Div(maxH as real, srcH as real);
    var (w, h) := Fit(srcW, srcH, maxW, maxH);
    assert w == AtLeastOne(Round(Mul(srcW as real, Scale(srcW, srcH, maxW, maxH))));
    assert h == AtLeastOne(Round(Mul(srcH as real, Scale(srcW, srcH, maxW, maxH))));
    hide Fit, Round, AtLeastOne, Mul, Div;
    SmallerRatio(srcW, srcH, maxW, maxH);
    if maxW * srcH <= maxH * srcW {
      FreeSide(srcW, srcH, maxW, rw);
      ExactSide(srcW, maxW);
    } else {
      FreeSide(srcH, srcW, maxH, rh);
      ExactSide(srcH, maxH);
    }
  }

  /** The bound side. */
  lemma ExactSide(side: int, limit: int)
    requires side > 0 && limit > 0
    ensures AtLeastOne(Round(Mul(side as real, Div(limit as real, side as real)))) == limit
  {
    hide Mul, Div;
    MulDiv(side as real, limit as real);
    RoundedSide(limit as real, limit);
  }

  /** The free side, scaled by the bound side's ratio. */
  lemma FreeSide(side: int, other: int, limit: int, ratio: real)
    requires side > 0 && other > 0 && limit > 0 && ratio == Div(limit as real, side as real)
    ensures
      var n := AtLeastOne(Round(Mul(other as real, ratio)));
      (n == 1 && 2 * (other * limit) < side)
      || 2 * side * n - side <= 2 * (other * limit) < 2 * side * n + side
  {
    hide Mul, Div, Round, AtLeastOne;
    var x := Mul(other as real, ratio);
    MulDiv(side as real, limit as real);
    DivPositive(side as real, limit as real);
    MulMonotone(other as real, 0.0, ratio);
    MulUnits(other as real);
    CrossMultiply(side, other, limit, ratio);
    MulAssociates(side as real, other as real, ratio);
    assert limit * other == other * limit;
    NearestSide(x, side, other * limit, AtLeastOne(Round(x)));
  }

  /** Fitting again changes nothing. */
  lemma {:induction false} FitIsIdempotent(srcW: int, srcH: int, maxW: int, maxH: int)
    requires srcW > 0 && srcH > 0 && maxW > 0 && maxH > 0
    ensures
      var (w, h) := Fit(srcW, srcH, maxW, maxH);
      w > 0 && h > 0 && Fit(w, h, maxW, maxH) == (w, h)
  {
    FitsBox(srcW, srcH, maxW, maxH);
  }
}
