/** Integer geometry of grouped shapes and picture crops. */
module DrawingScale {
  import opened Prelude

  const EMU_LIMIT := 127000000
  const FILL_RECT_LIMIT := 100000000
  const FULL := 100000
  const MAX_CROP := 99000
  const INT64_MAX := 0x7fff_ffff_ffff_ffff

  predicate InInt64(x: int) {
    -INT64_MAX - 1 <= x <= INT64_MAX
  }

  /** A child coordinate on the group's placed extent. All dividends are nonnegative, so truncation is flooring. */
  function ScaleEMU(value: int, placed: int, span: int): int {
    if span <= 0 then 0
    else
      var product := value * placed;
      if product < 0 then -((-product * 2 + span) / (2 * span)) else (product * 2 + span) / (2 * span)
  }

  /** q is n/d rounded to the nearest integer, halves upwards. */
  predicate Rounds(n: int, d: int, q: int) {
    2 * (d * q) - d <= 2 * n < 2 * (d * q) + d
  }

  lemma RoundedQuotient(n: nat, d: int)
    requires d > 0
    ensures Rounds(n, d, (n * 2 + d) / (2 * d)) && (n * 2 + d) / (2 * d) >= 0
  {
    var a, b := n * 2 + d, 2 * d;
    var q := a / b;
    assert a == b * q + a % b;
    assert b * q == 2 * (d * q) by { Scaled(d, q); }
    if q < 0 { NegativeProduct(b, q); }
  }

  lemma Scaled(d: int, q: int)
    ensures (2 * d) * q == 2 * (d * q)
  {
  }

  lemma NegativeProduct(b: int, q: int)
    requires b > 0 && q < 0
    ensures b * q <= -b
  {
    Monotone(b, q, -1);
  }

  lemma Monotone(d: int, q: int, r: int)
    requires d >= 0 && q <= r
    ensures d * q <= d * r
  {
    assert d * (r - q) >= 0 by { NonNegative(d, r - q); }
    Distribute(d, r, q);
  }

  lemma NonNegative(a: int, b: int)
    requires a >= 0 && b >= 0
    ensures a * b >= 0
  {
  }

  lemma Distribute(d: int, r: int, q: int)
    ensures d * (r - q) == d * r - d * q
  {
  }

  lemma RoundsMonotone(n: int, m: int, d: int, q: int, r: int)
    requires d > 0 && n <= m && Rounds(n, d, q) && Rounds(m, d, r)
    ensures q <= r
  {
    if q > r {
      Monotone(d, r + 1, q);
      Distribute(d, r + 1, r);
    }
  }

  lemma RoundsUnique(n: int, d: int, q: int, r: int)
    requires d > 0 && Rounds(n, d, q) && Rounds(n, d, r)
    ensures q == r
  {
    RoundsMonotone(n, n, d, q, r);
    RoundsMonotone(n, n, d, r, q);
  }

  // ------------------------------------- scaling (ECMA-376 Part 1, section 20.1.7.6)

  /** The result is within half a unit of the exact value, and halves go away from zero. */
  lemma WithinHalf(value: int, placed: int, span: int)
    requires span > 0
    ensures var s := ScaleEMU(value, placed, span); var p := value * placed;
      if p >= 0 then Rounds(p, span, s) && s >= 0 else Rounds(-p, span, -s) && s <= 0
  {
    var p := value * placed;
    RoundedQuotient(if p >= 0 then p else -p, span);
  }

  lemma Odd(value: int, placed: int, span: int)
    ensures ScaleEMU(-value, placed, span) == -ScaleEMU(value, placed, span)
  {
    assert (-value) * placed == -(value * placed);
    if span > 0 && value * placed == 0 { RoundsZero(span); }
  }

  lemma RoundsZero(span: int)
    requires span > 0
    ensures (0 * 2 + span) / (2 * span) == 0
  {
    RoundedQuotient(0, span);
    assert Rounds(0, span, 0);
    RoundsUnique(0, span, (0 * 2 + span) / (2 * span), 0);
  }

  /** At equal spans children stay where they are. */
  lemma IdentityAtEqualSpans(value: int, span: int)
    requires span > 0
    ensures ScaleEMU(value, span, span) == value
  {
    WithinHalf(value, span, span);
    var s := ScaleEMU(value, span, span);
    assert value * span == span * value;
    if value * span >= 0 {
      RoundsUnique(value * span, span, s, value);
    } else {
      assert span * (-value) == -(span * value);
      RoundsUnique(-(value * span), span, -s, -value);
    }
  }

  lemma MonotoneInValue(v: int, w: int, placed: int, span: int)
    requires v <= w && placed >= 0 && span > 0
    ensures ScaleEMU(v, placed, span) <= ScaleEMU(w, placed, span)
  {
    WithinHalf(v, placed, span);
    WithinHalf(w, placed, span);
    Monotone(placed, v, w);
    assert v * placed == placed * v && w * placed == placed * w;
    var p, q, s, t := v * placed, w * placed, ScaleEMU(v, placed, span), ScaleEMU(w, placed, span);
    if p >= 0 {
      RoundsMonotone(p, q, span, s, t);
    } else if q < 0 {
      RoundsMonotone(-q, -p, span, -t, -s);
    }
  }

  /** Twice the span times the error, at most the span. */
  lemma Error(value: int, placed: int, span: int)
    requires span > 0
    ensures -span <= 2 * (span * ScaleEMU(value, placed, span)) - 2 * (value * placed) <= span
  {
    WithinHalf(value, placed, span);
    var s := ScaleEMU(value, placed, span);
    assert span * (-s) == -(span * s);
  }

  /** Offset and width are scaled separately; together they miss the scaled right edge by at most one unit. */
  lemma RightEdge(x: int, width: int, placed: int, span: int)
    requires span > 0
    ensures -1 <= ScaleEMU(x, placed, span) + ScaleEMU(width, placed, span) - ScaleEMU(x + width, placed, span) <= 1
  {
    hide ScaleEMU;
    var a, b, c := ScaleEMU(x, placed, span), ScaleEMU(width, placed, span), ScaleEMU(x + width, placed, span);
    Error(x, placed, span);
    Error(width, placed, span);
    Error(x + width, placed, span);
    SumOfProducts(x, width, placed);
    ErrorOfSum(span, a, b, c);
    AtMostOne(span, a + b - c);
  }

  lemma SumOfProducts(x: int, y: int, p: int)
    ensures (x + y) * p == x * p + y * p
  {
  }

  lemma ErrorOfSum(span: int, a: int, b: int, c: int)
    ensures span * (a + b - c) == span * a + span * b - span * c
  {
  }

  lemma AtMostOne(span: int, e: int)
    requires span > 0 && -3 * span <= 2 * (span * e) <= 3 * span
    ensures -1 <= e <= 1
  {
    if e >= 2 { Monotone(span, 2, e); }
    if e <= -2 { Monotone(span, e, -2); }
  }

  /** A child inside the group's child space is placed inside the group, its right edge at most one unit outside. */
  lemma ChildStaysInside(x: int, width: int, placed: int, span: int)
    requires 0 <= x && 0 <= width && x + width <= span && 0 < span && 0 <= placed
    ensures 0 <= ScaleEMU(x, placed, span) <= placed
    ensures ScaleEMU(x, placed, span) + ScaleEMU(width, placed, span) <= placed + 1
  {
    MonotoneInValue(0, x, placed, span);
    MonotoneInValue(x, span, placed, span);
    MonotoneInValue(x + width, span, placed, span);
    RightEdge(x, width, placed, span);
    ScaledZero(placed, span);
    ScaledSpan(placed, span);
  }

  lemma ScaledZero(placed: int, span: int)
    requires span > 0
    ensures ScaleEMU(0, placed, span) == 0
  {
    RoundsZero(span);
  }

  lemma ScaledSpan(placed: int, span: int)
    requires span > 0 && placed >= 0
    ensures ScaleEMU(span, placed, span) == placed
  {
    WithinHalf(span, placed, span);
    NonNegative(span, placed);
    RoundsUnique(span * placed, span, ScaleEMU(span, placed, span), placed);
  }

  /** Every intermediate value fits 64 bits on the coordinates the caller admits, relative offsets included. */
  lemma NoOverflow(value: int, placed: int, span: int)
    requires -2 * EMU_LIMIT <= value <= 2 * EMU_LIMIT && 0 <= placed <= EMU_LIMIT && 0 < span <= EMU_LIMIT
    ensures InInt64(value * placed) && InInt64(-(value * placed)) && InInt64(2 * span)
    ensures InInt64((value * placed) * 2 + span) && InInt64(-(value * placed) * 2 + span)
    ensures InInt64(ScaleEMU(value, placed, span))
  {
    ProductBound(value, placed);
    WithinHalf(value, placed, span);
    ResultBound(value, placed, span);
  }

  lemma ProductBound(value: int, placed: int)
    requires -2 * EMU_LIMIT <= value <= 2 * EMU_LIMIT && 0 <= placed <= EMU_LIMIT
    ensures -2 * EMU_LIMIT * EMU_LIMIT <= value * placed <= 2 * EMU_LIMIT * EMU_LIMIT
  {
    Monotone(placed, -2 * EMU_LIMIT, value);
    Monotone(placed, value, 2 * EMU_LIMIT);
    assert placed * value == value * placed;
  }

  lemma ResultBound(value: int, placed: int, span: int)
    requires -2 * EMU_LIMIT <= value <= 2 * EMU_LIMIT && 0 <= placed <= EMU_LIMIT && 0 < span
    ensures -2 * EMU_LIMIT * EMU_LIMIT - 1 <= ScaleEMU(value, placed, span) <= 2 * EMU_LIMIT * EMU_LIMIT + 1
  {
    ProductBound(value, placed);
    Error(value, placed, span);
    var s, m := ScaleEMU(value, placed, span), 2 * EMU_LIMIT * EMU_LIMIT + 1;
    AtLeast(span, m + 1);
    assert span * (-m - 1) == -(span * (m + 1));
    if s > m {
      Monotone(span, m + 1, s);
    } else if s < -m {
      Monotone(span, s, -m - 1);
    }
  }

  lemma AtLeast(span: int, k: int)
    requires span >= 1 && k >= 1
    ensures span * k >= span + k - 1
  {
    NonNegative(span - 1, k - 1);
    assert (span - 1) * (k - 1) == span * k - span - k + 1;
  }

  datatype Placement = Placed(x: int, y: int, width: int, height: int) | Degenerate | OutOfRange

  predicate WithinEMU(v: int) {
    -EMU_LIMIT <= v <= EMU_LIMIT
  }

  /** Where a child of a group goes: offset and extent are scaled on each axis and the anchor is added. */
  method PlaceChild(x: int, y: int, cx: int, cy: int, originX: int, originY: int,
                    placedCX: int, placedCY: int, spanCX: int, spanCY: int, anchorX: int, anchorY: int)
    returns (r: Placement)
    requires 0 < spanCX <= EMU_LIMIT && 0 < spanCY <= EMU_LIMIT && 0 < placedCX <= EMU_LIMIT && 0 < placedCY <= EMU_LIMIT
    requires 0 < cx <= EMU_LIMIT && 0 < cy <= EMU_LIMIT
    ensures r.Placed? ==>
              && r.width > 0 && r.height > 0 && WithinEMU(r.x) && WithinEMU(r.y)
              && r.x == anchorX + ScaleEMU(x - originX, placedCX, spanCX) && r.width == ScaleEMU(cx, placedCX, spanCX)
              && r.y == anchorY + ScaleEMU(y - originY, placedCY, spanCY) && r.height == ScaleEMU(cy, placedCY, spanCY)
    ensures r.Placed? && originX <= x && x + cx <= originX + spanCX ==> anchorX <= r.x && r.x + r.width <= anchorX + placedCX + 1
    ensures r.Placed? && originY <= y && y + cy <= originY + spanCY ==> anchorY <= r.y && r.y + r.height <= anchorY + placedCY + 1
    ensures r.Degenerate? <==> 2 * (cx * placedCX) < spanCX || 2 * (cy * placedCY) < spanCY
    ensures r.OutOfRange? ==>
              !WithinEMU(anchorX + ScaleEMU(x - originX, placedCX, spanCX)) || !WithinEMU(anchorY + ScaleEMU(y - originY, placedCY, spanCY))
  {
    hide ScaleEMU;
    var width, height := ScaleEMU(cx, placedCX, spanCX), ScaleEMU(cy, placedCY, spanCY);
    PositiveExtent(cx, placedCX, spanCX);
    PositiveExtent(cy, placedCY, spanCY);
    var left := anchorX + ScaleEMU(x - originX, placedCX, spanCX);
    var top := anchorY + ScaleEMU(y - originY, placedCY, spanCY);
    if width <= 0 || height <= 0 {
      return Degenerate;
    }
    if !WithinEMU(left) || !WithinEMU(top) {
      return OutOfRange;
    }
    if originX <= x && x + cx <= originX + spanCX { ChildStaysInside(x - originX, cx, placedCX, spanCX); }
    if originY <= y && y + cy <= originY + spanCY { ChildStaysInside(y - originY, cy, placedCY, spanCY); }
    return Placed(left, top, width, height);
  }

  /** An extent vanishes exactly when its exact scaled value is below one half. */
  lemma PositiveExtent(extent: int, placed: int, span: int)
    requires extent > 0 && placed > 0 && span > 0
    ensures ScaleEMU(extent, placed, span) <= 0 <==> 2 * (extent * placed) < span
  {
    hide ScaleEMU;
    WithinHalf(extent, placed, span);
    NonNegative(extent, placed);
    var s := ScaleEMU(extent, placed, span);
    if s >= 1 { Monotone(span, 1, s); }
  }

  // ------------------------------------ cropping (ECMA-376 Part 1, section 20.1.8.14)

  /** One side of the crop after the picture is stretched beyond the shape. */
  function GrownCrop(crop: int, span: int, over: int, total: int): int
    requires total > 0
  {
    crop + (2 * span * over + total) / (2 * total)
  }

  lemma GrownRounds(crop: int, span: int, over: int, total: int)
    requires total > 0 && span >= 0 && over >= 0
    ensures Rounds(span * over, total, GrownCrop(crop, span, over, total) - crop) && GrownCrop(crop, span, over, total) >= crop
  {
    NonNegative(span, over);
    RoundedQuotient(span * over, total);
    assert 2 * span * over == (span * over) * 2;
  }

  /** What is left visible on one axis differs from the exact fraction by at most one unit. */
  lemma VisibleSpan(lo: int, hi: int, overLo: int, overHi: int)
    requires 0 <= lo && 0 <= hi && lo + hi <= MAX_CROP && 0 <= overLo && 0 <= overHi
    ensures var span, total := FULL - lo - hi, FULL + overLo + overHi;
      var visible := FULL - GrownCrop(lo, span, overLo, total) - GrownCrop(hi, span, overHi, total);
      -total <= total * visible - span * FULL <= total && visible <= span
  {
    hide GrownCrop;
    var span, total := FULL - lo - hi, FULL + overLo + overHi;
    GrownRounds(lo, span, overLo, total);
    GrownRounds(hi, span, overHi, total);
    var a, b := GrownCrop(lo, span, overLo, total) - lo, GrownCrop(hi, span, overHi, total) - hi;
    var visible := span - a - b;
    assert total * visible == total * span - total * a - total * b;
    assert total * span == span * FULL + span * overLo + span * overHi;
  }

  /** The crop of each side after composing the fill rectangle's overhang with the source rectangle. */
  function Composed(crop: seq<int>, over: seq<int>): (r: seq<int>)
    requires |crop| == 4 && |over| == 4 && forall i :: 0 <= i < 4 ==> over[i] >= 0
    ensures |r| == 4
  {
    var spanX, totalX := FULL - crop[0] - crop[2], FULL + over[0] + over[2];
    var spanY, totalY := FULL - crop[1] - crop[3], FULL + over[1] + over[3];
    [GrownCrop(crop[0], spanX, over[0], totalX), GrownCrop(crop[1], spanY, over[1], totalY),
     GrownCrop(crop[2], spanX, over[2], totalX), GrownCrop(crop[3], spanY, over[3], totalY)]
  }

  predicate CropOk(crop: seq<int>) {
    |crop| == 4 && (forall i :: 0 <= i < 4 ==> 0 <= crop[i]) && crop[0] + crop[2] <= MAX_CROP && crop[1] + crop[3] <= MAX_CROP
  }

  /**
   * Composition in place, axis by axis. It is refused when less than one percent stays visible; otherwise the sides
   * only grow, and each axis shows its exact share to within one unit.
   */
  method ComposeCrop(crop: array<int>, over: seq<int>) returns (ok: bool)
    requires crop.Length == 4 && CropOk(crop[..])
    requires |over| == 4 && forall i :: 0 <= i < 4 ==> 0 <= over[i] <= FILL_RECT_LIMIT
    modifies crop
    ensures crop[..] == Composed(old(crop[..]), over)
    ensures ok <==> CropOk(crop[..])
  {
    hide GrownCrop;
    ghost var was := crop[..];
    for axis := 0 to 2
      invariant axis == 0 ==> crop[..] == was
      invariant axis >= 1 ==> crop[0] == Composed(was, over)[0] && crop[2] == Composed(was, over)[2]
      invariant axis == 1 ==> crop[1] == was[1] && crop[3] == was[3]
      invariant axis == 2 ==> crop[1] == Composed(was, over)[1] && crop[3] == Composed(was, over)[3]
    {
      var lo, hi := axis, axis + 2;
      var span, total := FULL - crop[lo] - crop[hi], FULL + over[lo] + over[hi];
      crop[lo] := GrownCrop(crop[lo], span, over[lo], total);
      crop[hi] := GrownCrop(crop[hi], span, over[hi], total);
    }
    assert crop[..] == Composed(was, over);
    ComposedGrows(was, over);
    ok := !(crop[0] + crop[2] > MAX_CROP || crop[1] + crop[3] > MAX_CROP);
  }

  lemma ComposedGrows(crop: seq<int>, over: seq<int>)
    requires CropOk(crop) && |over| == 4 && forall i :: 0 <= i < 4 ==> over[i] >= 0
    ensures forall i :: 0 <= i < 4 ==> Composed(crop, over)[i] >= crop[i] >= 0
  {
    hide GrownCrop;
    var spanX, totalX := FULL - crop[0] - crop[2], FULL + over[0] + over[2];
    var spanY, totalY := FULL - crop[1] - crop[3], FULL + over[1] + over[3];
    GrownRounds(crop[0], spanX, over[0], totalX);
    GrownRounds(crop[1], spanY, over[1], totalY);
    GrownRounds(crop[2], spanX, over[2], totalX);
    GrownRounds(crop[3], spanY, over[3], totalY);
  }

  /** Each side grows by its own overhang's share of what its axis showed, to the nearest unit. */
  lemma ComposedSides(crop: seq<int>, over: seq<int>, i: nat)
    requires CropOk(crop) && |over| == 4 && forall i :: 0 <= i < 4 ==> 0 <= over[i] <= FILL_RECT_LIMIT
    requires i < 4
    ensures var j := if i < 2 then i + 2 else i - 2;
      Rounds((100000 - crop[i] - crop[j]) * over[i], 100000 + over[i] + over[j], Composed(crop, over)[i] - crop[i])
  {
    hide GrownCrop, Rounds;
    var j := if i < 2 then i + 2 else i - 2;
    GrownRounds(crop[i], FULL - crop[i] - crop[j], over[i], FULL + over[i] + over[j]);
  }

  /** Both axes of a composed crop show their share to within one unit. */
  lemma ComposedVisible(crop: seq<int>, over: seq<int>)
    requires CropOk(crop) && |over| == 4 && forall i :: 0 <= i < 4 ==> 0 <= over[i] <= FILL_RECT_LIMIT
    ensures var c := Composed(crop, over);
      var totalX, totalY := FULL + over[0] + over[2], FULL + over[1] + over[3];
      && -totalX <= totalX * (FULL - c[0] - c[2]) - (FULL - crop[0] - crop[2]) * FULL <= totalX
      && -totalY <= totalY * (FULL - c[1] - c[3]) - (FULL - crop[1] - crop[3]) * FULL <= totalY
  {
    hide GrownCrop;
    VisibleSpan(crop[0], crop[2], over[0], over[2]);
    VisibleSpan(crop[1], crop[3], over[1], over[3]);
  }

  lemma CropNoOverflow(span: int, over: int, total: int)
    requires 0 <= span <= FULL && 0 <= over <= FILL_RECT_LIMIT && FULL <= total <= FULL + 2 * FILL_RECT_LIMIT
    ensures InInt64(2 * span * over + total) && InInt64(2 * total)
  {
    Monotone(over, span, FULL);
    assert 2 * span * over == 2 * (over * span);
  }
}
