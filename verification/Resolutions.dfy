/** The resolutions that initializeStreamConfigurations offers for a camera's maximum one. */
module Resolutions {
  import opened Machine
  import opened Seqs
  import opened Sizes
  import opened Sorts

  const CAMERA3_RESOLUTIONS: seq<Size> := [Size(320, 240), Size(640, 480), Size(1280, 720), Size(1920, 1080)]

  function Pow2(k: nat): (p: nat)
    ensures p >= 1
  {
    if k == 0 then 1 else 2 * Pow2(k - 1)
  }

  function Divide(m: Size, divider: nat): Size
    requires divider >= 1
  {
    Quotient(m.width, divider);
    Quotient(m.height, divider);
    Size(m.width / divider, m.height / divider)
  }

  /** The maximum divided by a power of two. */
  function Halved(m: Size, k: nat): Size {
    Divide(m, Pow2(k))
  }

  predicate Large(s: Size) {
    s.width >= 320 && s.height >= 240
  }

  /** The maximum itself, what is mandatory below it, and what halving it gives down to 320x240. */
  ghost predicate Supported(m: Size, r: Size) {
    || r == m
    || (r in CAMERA3_RESOLUTIONS && Less(r, m))
    || exists k: nat :: k >= 1 && r == Halved(m, k) && Large(r)
  }

  lemma DivideTwice(a: nat, d: nat)
    requires d >= 1
    ensures a / (2 * d) == a / d / 2
  {
    var q := a / d;
    assert a == q * d + a % d && q == q / 2 * 2 + q % 2;
    assert a == q / 2 * (2 * d) + (q % 2 * d + a % d);
    UniqueQuotient(a, 2 * d, q / 2, q % 2 * d + a % d);
  }

  lemma UniqueQuotient(a: nat, b: nat, q: nat, r: nat)
    requires a == q * b + r && r < b
    ensures a / b == q
  {
    QuotientAtLeast(a, b, q);
    Quotient(a, b);
    assert (q + 1) * b == q * b + b;
    if a / b > q {
      ProductMonotone(q + 1, b, a / b, b);
    }
  }

  /** The k-th size of the loop is the maximum with both width and height halved k times. */
  lemma {:induction false} HalvedOnce(m: Size, k: nat)
    ensures Halved(m, 0) == m
    ensures Halved(m, k + 1).width == Halved(m, k).width / 2 && Halved(m, k + 1).height == Halved(m, k).height / 2
  {
    DivideTwice(m.width, Pow2(k));
    DivideTwice(m.height, Pow2(k));
  }

  /** The sizes offered, in numbers. */
  lemma SupportedWhen(m: Size, r: Size)
    ensures Supported(m, r) <==>
      || r == m
      || ((r == Size(320, 240) || r == Size(640, 480) || r == Size(1280, 720) || r == Size(1920, 1080)) && Less(r, m))
      || exists k: nat :: k >= 1 && r == Halved(m, k) && r.width >= 320 && r.height >= 240
  {
    if exists k: nat :: k >= 1 && r == Halved(m, k) && r.width >= 320 && r.height >= 240 {
      var k: nat :| k >= 1 && r == Halved(m, k) && r.width >= 320 && r.height >= 240;
      assert r == Halved(m, k) && Large(r);
    }
  }

  predicate StrictlyAscending(s: seq<Size>) {
    |s| <= 1 || (Less(s[|s| - 2], s[|s| - 1]) && StrictlyAscending(s[..|s| - 1]))
  }

  lemma Quotient(a: nat, d: nat)
    requires d >= 1
    ensures 0 <= a / d <= a && (a / d) * d <= a
  {
  }

  lemma QuotientAtLeast(a: nat, b: nat, q: nat)
    requires b >= 1 && q * b <= a
    ensures q <= a / b
  {
    var d := a / b;
    assert a == d * b + a % b && (d + 1) * b == d * b + b;
    if q > d {
      ProductMonotone(d + 1, b, q, b);
    }
  }

  /** A larger divisor gives no larger quotient. */
  lemma DivisorMonotone(a: nat, b: nat, c: nat)
    requires 1 <= b <= c
    ensures a / c <= a / b
  {
    Quotient(a, c);
    ProductMonotone(a / c, b, a / c, c);
    QuotientAtLeast(a, b, a / c);
  }

  lemma {:induction false} PowersGrow(j: nat, k: nat)
    requires j <= k
    ensures Pow2(j) <= Pow2(k)
  {
    if j < k {
      PowersGrow(j, k - 1);
    }
  }

  /** After a size that is too small come only such sizes. */
  lemma SmallStaysSmall(m: Size, j: nat, k: nat)
    requires j <= k && !Large(Halved(m, j))
    ensures !Large(Halved(m, k))
  {
    PowersGrow(j, k);
    DivisorMonotone(m.width, Pow2(j), Pow2(k));
    DivisorMonotone(m.height, Pow2(j), Pow2(k));
  }

  // ----- std::sort and std::unique -----

  lemma SizesCompare()
    ensures IsTotal(AtMost)
  {
    forall a: Size, b: Size ensures AtMost(a, b) || AtMost(b, a) {
      AtMostIsTotal(a, b);
    }
  }

  /** Sizes that the order does not tell apart are equal. */
  predicate Comparable(list: seq<Size>) {
    forall a, b :: a in list && b in list && !Less(a, b) && !Less(b, a) ==> a == b
  }

  lemma {:induction false} AscendingNext(list: seq<Size>, i: nat)
    requires Ascending(list, AtMost) && 0 < i < |list|
    ensures AtMost(list[i - 1], list[i])
  {
    if i < |list| - 1 {
      AscendingNext(list[..|list| - 1], i);
    }
  }

  lemma StrictPush(s: seq<Size>, x: Size)
    requires StrictlyAscending(s) && (s == [] || Less(s[|s| - 1], x))
    ensures StrictlyAscending(s + [x])
  {
    InitLast(s, x);
    assert s != [] ==> (s + [x])[|s| - 1] == s[|s| - 1];
  }

  /** Equal neighbours are dropped; in a sorted list that leaves each size once. */
  method Unique(list: seq<Size>) returns (r: seq<Size>)
    requires Ascending(list, AtMost) && Comparable(list)
    ensures StrictlyAscending(r) && forall x :: x in r <==> x in list
    ensures list != [] ==> r != [] && r[|r| - 1] == list[|list| - 1]
  {
    r := [];
    for i := 0 to |list|
      invariant StrictlyAscending(r) && forall x :: x in r <==> x in list[..i]
      invariant if i == 0 then r == [] else r != [] && r[|r| - 1] == list[i - 1]
    {
      TakeNext(list, i);
      if r == [] || r[|r| - 1] != list[i] {
        if i > 0 {
          AscendingNext(list, i);
          assert list[i - 1] in list && list[i] in list;
        }
        StrictPush(r, list[i]);
        r := r + [list[i]];
      }
    }
    TakeAll(list);
  }

  // ----- the list -----

  lemma HalvedIsLess(m: Size, k: nat)
    requires k >= 1 && Large(Halved(m, k))
    ensures Less(Halved(m, k), m)
  {
    PowersGrow(1, k);
    assert Pow2(1) == 2 * Pow2(0);
    DivisorMonotone(m.width, 2, Pow2(k));
    DivisorMonotone(m.height, 2, Pow2(k));
  }

  lemma MandatoryHasArea(r: Size, m: Size)
    requires r in CAMERA3_RESOLUTIONS && Less(r, m)
    ensures r.width != 0 && m.width != 0
  {
    LessIsAreaThenWidth(r, m);
    assert Area(r) > 0;
  }

  lemma SupportedAtMost(m: Size, r: Size)
    requires Supported(m, r)
    ensures r == m || (Less(r, m) && r.width != 0 && m.width != 0)
  {
    if r in CAMERA3_RESOLUTIONS && Less(r, m) {
      MandatoryHasArea(r, m);
    } else if r != m {
      var k: nat :| k >= 1 && r == Halved(m, k) && Large(r);
      HalvedIsLess(m, k);
      Quotient(m.width, Pow2(k));
    }
  }

  lemma AllComparable(m: Size, list: seq<Size>)
    requires forall r :: r in list ==> Supported(m, r)
    ensures Comparable(list)
  {
    forall a, b | a in list && b in list && !Less(a, b) && !Less(b, a) ensures a == b {
      SupportedAtMost(m, a);
      SupportedAtMost(m, b);
      LessIsTotal(a, b);
    }
  }

  /** The sizes of camera3Resolutions below the maximum. */
  method Mandatory(m: Size) returns (list: seq<Size>)
    ensures forall r :: r in list <==> r in CAMERA3_RESOLUTIONS && Less(r, m)
  {
    list := [];
    for i := 0 to |CAMERA3_RESOLUTIONS|
      invariant forall r :: r in list <==> r in CAMERA3_RESOLUTIONS[..i] && Less(r, m)
    {
      TakeNext(CAMERA3_RESOLUTIONS, i);
      if Less(CAMERA3_RESOLUTIONS[i], m) {
        list := list + [CAMERA3_RESOLUTIONS[i]];
      }
    }
    TakeAll(CAMERA3_RESOLUTIONS);
  }

  lemma DividerFits(m: Size, divider: nat)
    requires divider >= 1 && Large(Divide(m, divider))
    ensures divider * 2 < 0x1_0000_0000
  {
    Quotient(m.width, divider);
    ProductMonotone(320, divider, m.width / divider, divider);
  }

  /** The list holds the first k - 1 halved sizes. */
  ghost predicate HalvedBelow(m: Size, list: seq<Size>, k: nat) {
    && (forall j: nat :: 1 <= j < k ==> Halved(m, j) in list)
    && forall r :: r in list ==> exists j: nat :: j >= 1 && r == Halved(m, j) && Large(r)
  }

  lemma HalvedNext(m: Size, list: seq<Size>, k: nat)
    requires k >= 1 && HalvedBelow(m, list, k) && Large(Halved(m, k))
    ensures HalvedBelow(m, list + [Halved(m, k)], k + 1)
  {
  }

  lemma HalvedEnd(m: Size, list: seq<Size>, k: nat)
    requires k >= 1 && HalvedBelow(m, list, k) && !Large(Halved(m, k))
    ensures forall r :: r in list <==> exists j: nat :: j >= 1 && r == Halved(m, j) && Large(r)
  {
    forall j: nat | j >= k ensures !Large(Halved(m, j)) {
      SmallStaysSmall(m, k, j);
    }
  }

  /** The halved sizes; the divider never leaves 32 bits. */
  method Divided(m: Size) returns (list: seq<Size>)
    ensures forall r :: r in list <==> exists k: nat :: k >= 1 && r == Halved(m, k) && Large(r)
  {
    list := [];
    var divider: U32 := 2;
    ghost var k := 1;
    assert Pow2(1) == 2 * Pow2(0);
    while true
      invariant k >= 1 && divider == Pow2(k) && HalvedBelow(m, list, k)
      decreases 0x1_0000_0000 - divider
    {
      var derived := Divide(m, divider);
      if derived.width < 320 || derived.height < 240 {
        HalvedEnd(m, list, k);
        break;
      }
      DividerFits(m, divider);
      HalvedNext(m, list, k);
      list := list + [derived];
      divider := divider * 2;
      k := k + 1;
    }
  }

  lemma SameMembers(a: seq<Size>, b: seq<Size>)
    requires multiset(a) == multiset(b)
    ensures forall r :: r in a <==> r in b
  {
    forall r ensures r in a <==> r in b {
      assert r in a <==> r in multiset(a);
      assert r in b <==> r in multiset(b);
    }
  }

  /** Exactly the supported sizes, each once, the smallest first and the maximum last. */
  method Resolutions(m: Size) returns (list: seq<Size>)
    ensures StrictlyAscending(list) && forall r :: r in list <==> Supported(m, r)
    ensures list != [] && list[|list| - 1] == m
  {
    var mandatory := Mandatory(m);
    var divided := Divided(m);
    list := mandatory + divided + [m];
    AllComparable(m, list);
    SizesCompare();
    ghost var before := list;
    list := Sort(list, AtMost);
    SameMembers(before, list);
    assert m in list;
    list := Unique(list);
    assert m in list;
    MaximumIsLast(m, list);
  }

  lemma {:induction false} BelowLast(list: seq<Size>, r: Size)
    requires StrictlyAscending(list) && r in list
    ensures r == list[|list| - 1] || Less(r, list[|list| - 1])
  {
    var n := |list| - 1;
    assert list == list[..n] + [list[n]];
    if r != list[n] {
      BelowLast(list[..n], r);
      LessIsStrictWeak(r, list[n - 1], list[n]);
    }
  }

  lemma MaximumIsLast(m: Size, list: seq<Size>)
    requires StrictlyAscending(list) && m in list && forall r :: r in list ==> Supported(m, r)
    ensures list[|list| - 1] == m
  {
    var last := list[|list| - 1];
    BelowLast(list, m);
    SupportedAtMost(m, last);
    LessIsStrictWeak(m, last, m);
  }
}
