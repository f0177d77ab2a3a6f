/**
 * The drain of sortCamera3StreamConfigs: while the map is not empty, one pass takes the last
 * configuration of every bucket in map order.
 */
module RoundRobin {
  import opened Seqs
  import opened Sizes
  import opened StreamBuckets
  import opened Sorts

  /** The configurations of format f, in order. */
  function Of(s: seq<Config>, f: PixelFormat): seq<Config> {
    if s == [] then []
    else Of(s[..|s| - 1], f) + (if s[|s| - 1].fmt == f then [s[|s| - 1]] else [])
  }

  lemma {:induction false} OfConcat(a: seq<Config>, b: seq<Config>, f: PixelFormat)
    ensures Of(a + b, f) == Of(a, f) + Of(b, f)
  {
    if b == [] {
      assert a + b == a;
    } else {
      var n := |b| - 1;
      assert (a + b)[..|a + b| - 1] == a + b[..n];
      OfConcat(a, b[..n], f);
    }
  }

  lemma OfCons(c: Config, s: seq<Config>, f: PixelFormat)
    ensures Of([c] + s, f) == (if c.fmt == f then [c] else []) + Of(s, f)
  {
    assert [c][..0] == [];
    assert Of([c], f) == [] + (if c.fmt == f then [c] else []);
    OfConcat([c], s, f);
  }

  function Backwards(s: seq<Config>): (r: seq<Config>)
    ensures |r| == |s|
  {
    if s == [] then [] else [s[|s| - 1]] + Backwards(s[..|s| - 1])
  }

  /** What the drain appends, round by round. */
  function Drained(b: seq<Bucket>): seq<Config>
    requires IsMap(b)
    decreases |Contents(b)|
  {
    if b == [] then []
    else
      RestKeepsMap(b);
      RestContents(b);
      assert multiset(Round(b)) != multiset{};
      Round(b) + Drained(Rest(b))
  }

  lemma {:induction false} DrainedContents(b: seq<Bucket>)
    requires IsMap(b)
    ensures multiset(Drained(b)) == Contents(b)
    decreases |Contents(b)|
  {
    if b != [] {
      RestKeepsMap(b);
      RestContents(b);
      DrainedContents(Rest(b));
    }
  }

  lemma {:induction false} RoundOf(b: seq<Bucket>, f: PixelFormat)
    requires IsMap(b)
    ensures var from := Lookup(b, f);
      Of(Round(b), f) == if from == [] then [] else [from[|from| - 1]]
    decreases b
  {
    if b != [] {
      RoundOf(b[1..], f);
      OfCons(Last(b[0]), Round(b[1..]), f);
      HeadFormat(b);
      if b[0].fmt == f {
        LookupAbsent(b[1..], f);
        ConcatEmpty([Last(b[0])]);
      } else {
        ConcatEmpty(Of(Round(b[1..]), f));
      }
    }
  }

  lemma HeadFormat(b: seq<Bucket>)
    requires IsMap(b) && b != []
    ensures Last(b[0]).fmt == b[0].fmt
  {
    assert Last(b[0]) in b[0].configs;
  }

  /** Each format comes out of its bucket from the back to the front. */
  lemma {:induction false} DrainedOf(b: seq<Bucket>, f: PixelFormat)
    requires IsMap(b)
    ensures Of(Drained(b), f) == Backwards(Lookup(b, f))
    decreases |Contents(b)|
  {
    if b != [] {
      RestKeepsMap(b);
      RestContents(b);
      OfConcat(Round(b), Drained(Rest(b)), f);
      RoundOf(b, f);
      RestLookup(b, f);
      DrainedOf(Rest(b), f);
    }
  }

  // ----- fairness -----

  /** How many configurations of format f are among the first p. */
  function Count(s: seq<Config>, p: nat, f: PixelFormat): nat
    requires p <= |s|
  {
    |Of(s[..p], f)|
  }

  function Total(s: seq<Config>, f: PixelFormat): nat {
    |Of(s, f)|
  }

  /**
   * After p configurations no format is more than one ahead of another that is not used up, and a
   * format that comes first in map order is never behind unless it is used up.
   */
  predicate FairAt(s: seq<Config>, p: nat, f: PixelFormat, g: PixelFormat)
    requires p <= |s|
  {
    FairCounts(Count(s, p, f), Count(s, p, g), Total(s, f), Total(s, g), f < g)
  }

  predicate FairCounts(countF: nat, countG: nat, totalF: nat, totalG: nat, fFirst: bool) {
    (countF <= countG + 1 || countG == totalG) && (fFirst ==> countF >= countG || countF == totalF)
  }

  /** Within one round each format comes at most once, and the formats in map order. */
  lemma {:induction false} WithinRound(b: seq<Bucket>, p: nat, f: PixelFormat, g: PixelFormat)
    requires IsMap(b) && p <= |b|
    ensures var r := Round(b);
      && Count(r, p, f) <= Total(r, f) <= 1
      && (f < g && Count(r, p, g) == 1 ==> Count(r, p, f) == Total(r, f))
    decreases b
  {
    if p == 0 {
      RoundOf(b, f);
      TakeAll(Round(b));
    } else {
      var x, tail := b[0], Round(b[1..]);
      WithinRound(b[1..], p - 1, f, g);
      CountCons(Last(x), tail, p - 1, f);
      CountCons(Last(x), tail, p - 1, g);
      HeadFormat(b);
      if f <= x.fmt {
        NotAfter(b, f);
      }
    }
  }

  /** A format that is not above the first one does not come after it in the round. */
  lemma NotAfter(b: seq<Bucket>, f: PixelFormat)
    requires IsMap(b) && b != [] && f <= b[0].fmt
    ensures Total(Round(b[1..]), f) == 0
  {
    LookupAbsent(b[1..], f);
    RoundOf(b[1..], f);
  }

  lemma CountCons(c: Config, s: seq<Config>, p: nat, f: PixelFormat)
    requires p <= |s|
    ensures Count([c] + s, p + 1, f) == (if c.fmt == f then 1 else 0) + Count(s, p, f)
    ensures Total([c] + s, f) == (if c.fmt == f then 1 else 0) + Total(s, f)
  {
    assert ([c] + s)[..p + 1] == [c] + s[..p];
    OfCons(c, s[..p], f);
    OfCons(c, s, f);
  }

  lemma CountConcat(s: seq<Config>, r: seq<Config>, t: seq<Config>, p: nat, q: nat, f: PixelFormat)
    requires s == r + t && p == |r| + q && q <= |t|
    ensures Count(s, p, f) == Total(r, f) + Count(t, q, f)
    ensures Total(s, f) == Total(r, f) + Total(t, f)
    ensures Count(t, q, f) <= Total(t, f)
  {
    assert s[..p] == r + t[..q];
    OfConcat(r, t[..q], f);
    OfConcat(r, t, f);
    assert t == t[..q] + t[q..];
    OfConcat(t[..q], t[q..], f);
  }

  /** The drain is fair at every point. */
  lemma {:induction false} DrainIsFair(b: seq<Bucket>, p: nat, f: PixelFormat, g: PixelFormat)
    requires IsMap(b) && p <= |Drained(b)|
    ensures FairAt(Drained(b), p, f, g)
    decreases |Contents(b)|
  {
    if p <= |b| {
      FairInFirstRound(b, p, f, g);
    } else {
      RestIsSmaller(b);
      var q := p - |b|;
      DrainIsFair(Rest(b), q, f, g);
      FairLater(b, p, q, f, g);
    }
  }

  lemma RestIsSmaller(b: seq<Bucket>)
    requires b != [] && IsMap(b)
    ensures IsMap(Rest(b)) && |Contents(Rest(b))| < |Contents(b)|
    ensures |Drained(b)| == |b| + |Drained(Rest(b))|
  {
    RestKeepsMap(b);
    RestContents(b);
  }

  lemma FairInFirstRound(b: seq<Bucket>, p: nat, f: PixelFormat, g: PixelFormat)
    requires IsMap(b) && p <= |b| && p <= |Drained(b)|
    ensures FairAt(Drained(b), p, f, g)
  {
    if b == [] {
      assert Drained(b)[..p] == [];
    } else {
      RoundCount(b, f);
      RoundCount(b, g);
      var r, t := Round(b), Drained(Rest(b));
      CountConcat(r + t, r, t, |r|, 0, f);
      CountConcat(r + t, r, t, |r|, 0, g);
      assert (r + t)[..p] == r[..p];
      WithinRound(b, p, f, g);
      WithinRound(b, p, g, f);
    }
  }

  lemma FairLater(b: seq<Bucket>, p: nat, q: nat, f: PixelFormat, g: PixelFormat)
    requires b != [] && IsMap(b) && IsMap(Rest(b))
    requires p == |b| + q && p <= |Drained(b)|
    requires q <= |Drained(Rest(b))| && FairAt(Drained(Rest(b)), q, f, g)
    ensures FairAt(Drained(b), p, f, g)
  {
    CountLater(b, p, q, f);
    CountLater(b, p, q, g);
  }

  /** One round later the counts have grown by what the round took. */
  lemma CountLater(b: seq<Bucket>, p: nat, q: nat, f: PixelFormat)
    requires b != [] && IsMap(b) && IsMap(Rest(b))
    requires p == |b| + q && p <= |Drained(b)| && q <= |Drained(Rest(b))|
    ensures var one := Total(Round(b), f);
      && one <= 1
      && Count(Drained(b), p, f) == one + Count(Drained(Rest(b)), q, f)
      && Total(Drained(b), f) == one + Total(Drained(Rest(b)), f)
      && Count(Drained(Rest(b)), q, f) <= Total(Drained(Rest(b)), f)
      && (one == 0 ==> Total(Drained(Rest(b)), f) == 0)
  {
    RoundCount(b, f);
    CountConcat(Drained(b), Round(b), Drained(Rest(b)), p, q, f);
  }

  /** A round takes one of each format there is; a format not there does not come later. */
  lemma RoundCount(b: seq<Bucket>, f: PixelFormat)
    requires IsMap(b)
    ensures Total(Round(b), f) <= 1 && IsMap(Rest(b))
    ensures Total(Round(b), f) == 0 ==> Total(Drained(Rest(b)), f) == 0
  {
    RoundOf(b, f);
    RestKeepsMap(b);
    RestLookup(b, f);
    DrainedOf(Rest(b), f);
  }

  // ----- order by size -----

  /** Sizes do not grow. */
  predicate Descending(s: seq<Config>) {
    |s| <= 1 || (AtMost(s[1].size, s[0].size) && Descending(s[1..]))
  }

  /** Sizes do not shrink: what std::sort leaves. */
  predicate BySize(s: seq<Config>) {
    Ascending(s, SizeLe)
  }

  predicate SizeLe(a: Config, b: Config) {
    AtMost(a.size, b.size)
  }

  lemma SizeLeIsTotal()
    ensures IsTotal(SizeLe)
  {
    forall a: Config, b: Config ensures SizeLe(a, b) || SizeLe(b, a) {
      AtMostIsTotal(a.size, b.size);
    }
  }

  lemma {:induction false} BackwardsDescends(s: seq<Config>)
    requires BySize(s)
    ensures Descending(Backwards(s))
  {
    if |s| > 1 {
      BackwardsDescends(s[..|s| - 1]);
      assert Backwards(s)[1..] == Backwards(s[..|s| - 1]);
    }
  }

  lemma {:induction false} FirstIsLargest(s: seq<Config>, k: nat)
    requires Descending(s) && k < |s|
    ensures AtMost(s[k].size, s[0].size)
  {
    if k > 0 {
      FirstIsLargest(s[1..], k - 1);
      LessIsStrictWeak(s[k].size, s[1].size, s[0].size);
    } else {
      LessIsStrictWeak(s[0].size, s[0].size, s[0].size);
    }
  }

  lemma {:induction false} LastIsLargest(s: seq<Config>, k: nat)
    requires BySize(s) && k < |s|
    ensures AtMost(s[k].size, s[|s| - 1].size)
  {
    if k < |s| - 1 {
      LastIsLargest(s[..|s| - 1], k);
      LessIsStrictWeak(s[k].size, s[|s| - 2].size, s[|s| - 1].size);
    } else {
      LessIsStrictWeak(s[k].size, s[k].size, s[k].size);
    }
  }

  /** If a format descends then any two of its configurations do. */
  lemma {:induction false} DescendingPairs(s: seq<Config>, i: nat, j: nat)
    requires i < j < |s| && s[i].fmt == s[j].fmt && Descending(Of(s, s[i].fmt))
    ensures AtMost(s[j].size, s[i].size)
  {
    var f := s[i].fmt;
    var before, mid := s[..i], s[i + 1..j];
    assert s == before + ([s[i]] + (mid + ([s[j]] + s[j + 1..])));
    OfConcat(before, [s[i]] + (mid + ([s[j]] + s[j + 1..])), f);
    OfCons(s[i], mid + ([s[j]] + s[j + 1..]), f);
    OfConcat(mid, [s[j]] + s[j + 1..], f);
    OfCons(s[j], s[j + 1..], f);
    var rest := Of(mid, f) + ([s[j]] + Of(s[j + 1..], f));
    assert Of(s, f) == Of(before, f) + ([s[i]] + rest);
    DescendingSuffix(Of(before, f), [s[i]] + rest);
    assert ([s[i]] + rest)[1 + |Of(mid, f)|] == s[j];
    FirstIsLargest([s[i]] + rest, 1 + |Of(mid, f)|);
  }

  lemma {:induction false} DescendingSuffix(a: seq<Config>, b: seq<Config>)
    requires Descending(a + b)
    ensures Descending(b)
  {
    if a == [] {
      assert a + b == b;
    } else {
      assert (a + b)[1..] == a[1..] + b;
      if |a + b| > 1 {
        DescendingSuffix(a[1..], b);
      }
    }
  }
}
