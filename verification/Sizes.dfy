/** The order of image sizes: operator< of libcamera's Size. */
module Sizes {
  import opened Machine

  datatype Size = Size(width: U32, height: U32)

  function Area(s: Size): nat {
    s.width * s.height
  }

  /** operator<, branch for branch; the areas are computed in 64 bits, where they cannot overflow. */
  predicate Less(a: Size, b: Size) {
    if a.width < b.width && a.height < b.height then true
    else if a.width >= b.width && a.height >= b.height then false
    else if Area(a) < Area(b) then true
    else if Area(a) > Area(b) then false
    else a.width < b.width
  }

  /** Not larger, in that order. */
  predicate AtMost(a: Size, b: Size) {
    !Less(b, a)
  }

  lemma ProductMonotone(a: nat, b: nat, c: nat, d: nat)
    requires a <= c && b <= d
    ensures a * b <= c * d
    ensures a < c && b < d ==> a * b < c * d
  {
    assert a * b <= a * d <= c * d;
  }

  /** The three cases together order sizes by area and then by width. */
  lemma LessIsAreaThenWidth(a: Size, b: Size)
    ensures Less(a, b) <==> Area(a) < Area(b) || (Area(a) == Area(b) && a.width < b.width)
  {
    if a.width < b.width && a.height < b.height {
      ProductMonotone(a.width, a.height, b.width, b.height);
    } else if a.width >= b.width && a.height >= b.height {
      ProductMonotone(b.width, b.height, a.width, a.height);
    }
  }

  /** What std::sort asks of it: a strict weak order. */
  lemma LessIsStrictWeak(a: Size, b: Size, c: Size)
    ensures !Less(a, a)
    ensures Less(a, b) && Less(b, c) ==> Less(a, c)
    ensures AtMost(a, b) && AtMost(b, c) ==> AtMost(a, c)
    ensures AtMost(a, b) || AtMost(b, a)
  {
    LessIsAreaThenWidth(a, b);
    LessIsAreaThenWidth(b, a);
    LessIsAreaThenWidth(b, c);
    LessIsAreaThenWidth(c, b);
    LessIsAreaThenWidth(a, c);
    LessIsAreaThenWidth(c, a);
  }

  /** What it is not to be larger: a smaller area, or the same area and no larger width. */
  lemma AtMostMeans(a: Size, b: Size)
    ensures AtMost(a, b) <==>
      a.width * a.height < b.width * b.height || (a.width * a.height == b.width * b.height && a.width <= b.width)
  {
    LessIsAreaThenWidth(b, a);
  }

  lemma AtMostIsTotal(a: Size, b: Size)
    ensures AtMost(a, b) || AtMost(b, a)
  {
    LessIsStrictWeak(a, b, a);
  }

  lemma SameProduct(w: nat, h: nat, k: nat)
    ensures w * h == w * k <==> w == 0 || h == k
  {
    if h < k {
      assert w * k == w * h + w * (k - h);
    } else if k < h {
      assert w * h == w * k + w * (h - k);
    }
  }

  /**
   * The order is consistent with == except on sizes of width zero, which are all incomparable with
   * one another.
   */
  lemma LessIsTotal(a: Size, b: Size)
    ensures !Less(a, b) && !Less(b, a) <==> a == b || a.width == 0 == b.width
  {
    LessIsAreaThenWidth(a, b);
    LessIsAreaThenWidth(b, a);
    SameProduct(a.width, a.height, b.height);
  }
}
