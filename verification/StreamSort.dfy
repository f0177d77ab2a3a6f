/** sortCamera3StreamConfigs: the order in which the configurations are offered to the camera. */
module StreamSort {
  import opened Sizes
  import opened StreamBuckets
  import opened RoundRobin
  import opened Sorts
  import opened Seqs
  import opened Wrappers

  predicate HasStream(c: Config, s: AndroidStream) {
    exists r :: r in c.streams && r.stream == s
  }

  /** The first configuration that serves the JPEG stream. */
  function JpegOf(configs: seq<Config>, jpeg: Option<AndroidStream>): Option<Config> {
    if configs == [] then None
    else
      var n := |configs| - 1;
      var earlier := JpegOf(configs[..n], jpeg);
      if earlier.Some? then earlier
      else if jpeg.Some? && HasStream(configs[n], jpeg.value) then Some(configs[n])
      else None
  }

  function AsMultiset(c: Option<Config>): multiset<Config> {
    if c.Some? then multiset{c.value} else multiset{}
  }

  lemma JpegOfPush(configs: seq<Config>, c: Config, jpeg: Option<AndroidStream>)
    ensures JpegOf(configs + [c], jpeg) ==
      if JpegOf(configs, jpeg).None? && jpeg.Some? && HasStream(c, jpeg.value) then Some(c)
      else JpegOf(configs, jpeg)
  {
    InitLast(configs, c);
  }

  lemma {:induction false} JpegOfIsThere(configs: seq<Config>, jpeg: Option<AndroidStream>)
    ensures JpegOf(configs, jpeg).None? <==>
      jpeg.None? || forall c :: c in configs ==> !HasStream(c, jpeg.value)
    ensures JpegOf(configs, jpeg).Some? ==>
      JpegOf(configs, jpeg).value in configs && HasStream(JpegOf(configs, jpeg).value, jpeg.value)
  {
    if configs != [] {
      var n := |configs| - 1;
      JpegOfIsThere(configs[..n], jpeg);
      assert forall c :: c in configs <==> c in configs[..n] || c == configs[n];
    }
  }

  /** It is the first one of all that serve the JPEG stream. */
  lemma {:induction false} JpegIsFirst(configs: seq<Config>, jpeg: AndroidStream) returns (k: nat)
    requires JpegOf(configs, Some(jpeg)).Some?
    ensures k < |configs| && JpegOf(configs, Some(jpeg)) == Some(configs[k]) && HasStream(configs[k], jpeg)
    ensures forall j :: 0 <= j < k ==> !HasStream(configs[j], jpeg)
  {
    var n := |configs| - 1;
    if JpegOf(configs[..n], Some(jpeg)).Some? {
      k := JpegIsFirst(configs[..n], jpeg);
    } else {
      k := n;
      JpegOfIsThere(configs[..n], Some(jpeg));
    }
  }

  // ----- std::sort on each bucket -----

  predicate SortedBucket(x: Bucket, y: Bucket) {
    x.fmt == y.fmt && BySize(x.configs) && multiset(x.configs) == multiset(y.configs)
  }

  predicate SortedBuckets(a: seq<Bucket>, b: seq<Bucket>) {
    |a| == |b| && forall i :: 0 <= i < |a| ==> SortedBucket(a[i], b[i])
  }

  lemma {:induction false} SortedBucketsMap(a: seq<Bucket>, b: seq<Bucket>)
    requires IsMap(b) && SortedBuckets(a, b)
    ensures IsMap(a) && Contents(a) == Contents(b)
    decreases b
  {
    if b != [] {
      assert SortedBucket(a[0], b[0]);
      assert SortedBuckets(a[1..], b[1..]) by {
        forall i | 0 <= i < |a| - 1 ensures SortedBucket(a[1..][i], b[1..][i]) {
          assert SortedBucket(a[i + 1], b[i + 1]);
        }
      }
      SortedBucketsMap(a[1..], b[1..]);
      assert AllOf(a[0].configs, a[0].fmt) by {
        forall c | c in a[0].configs ensures c.fmt == a[0].fmt {
          assert c in multiset(a[0].configs);
        }
      }
      forall x | x in a[1..] ensures a[0].fmt < x.fmt {
        var i :| 0 <= i < |a| - 1 && a[1..][i] == x;
        assert SortedBucket(a[1..][i], b[1..][i]);
        assert b[1..][i] in b[1..];
      }
    }
  }

  lemma {:induction false} SortedBucketsLookup(a: seq<Bucket>, b: seq<Bucket>, f: PixelFormat)
    requires SortedBuckets(a, b)
    ensures BySize(Lookup(a, f))
    ensures multiset(Lookup(a, f)) == multiset(Lookup(b, f))
    decreases b
  {
    if b != [] {
      assert SortedBucket(a[0], b[0]);
      assert SortedBuckets(a[1..], b[1..]) by {
        forall i | 0 <= i < |a| - 1 ensures SortedBucket(a[1..][i], b[1..][i]) {
          assert SortedBucket(a[i + 1], b[i + 1]);
        }
      }
      SortedBucketsLookup(a[1..], b[1..], f);
    }
  }

  method SortBuckets(b: seq<Bucket>) returns (a: seq<Bucket>)
    ensures SortedBuckets(a, b)
  {
    a := [];
    for i := 0 to |b|
      invariant |a| == i
      invariant forall k :: 0 <= k < i ==> SortedBucket(a[k], b[k])
    {
      SizeLeIsTotal();
      var sorted := Sort(b[i].configs, SizeLe);
      a := a + [Bucket(b[i].fmt, sorted)];
    }
  }

  // ----- the passes over the map -----

  /** One pass of the drain: `rest` is what the iterator has still to visit. */
  method DrainPass(b: seq<Bucket>, sorted: seq<Config>) returns (b': seq<Bucket>, sorted': seq<Config>)
    requires IsMap(b)
    ensures b' == Rest(b) && sorted' == sorted + Round(b)
  {
    var rest := b;
    b', sorted' := [], sorted;
    ConcatEmpty(Rest(b));
    while rest != []
      invariant IsMap(rest)
      invariant sorted' + Round(rest) == sorted + Round(b)
      invariant b' + Rest(rest) == Rest(b)
      decreases |rest|
    {
      var x := rest[0];
      RestHead(b', rest);
      Assoc(sorted', [Last(x)], Round(rest[1..]));
      sorted' := sorted' + [Last(x)];
      if |x.configs| > 1 {
        b' := b' + [x.(configs := x.configs[..|x.configs| - 1])];
      }
      rest := rest[1..];
    }
    ConcatEmpty(b');
    ConcatEmpty(sorted');
  }

  lemma RestHead(done: seq<Bucket>, b: seq<Bucket>)
    requires b != [] && IsMap(b)
    ensures done + Rest(b) ==
      (if |b[0].configs| == 1 then done else done + [b[0].(configs := b[0].configs[..|b[0].configs| - 1])])
      + Rest(b[1..])
  {
    if |b[0].configs| > 1 {
      Assoc(done, [b[0].(configs := b[0].configs[..|b[0].configs| - 1])], Rest(b[1..]));
    }
  }

  /** The drain: passes until the map is empty. */
  method Drain(b: seq<Bucket>, sorted: seq<Config>) returns (sorted': seq<Config>)
    requires IsMap(b)
    ensures sorted' == sorted + Drained(b)
  {
    var left := b;
    sorted' := sorted;
    while left != []
      invariant IsMap(left)
      invariant sorted' + Drained(left) == sorted + Drained(b)
      decreases |Contents(left)|
    {
      RestIsSmaller(left);
      Assoc(sorted', Round(left), Drained(Rest(left)));
      left, sorted' := DrainPass(left, sorted');
    }
    ConcatEmpty(sorted');
  }

  // ----- the whole -----

  /** Any two configurations of one format, the one at `except` left out, appear in descending size. */
  predicate DescendsByFormat(s: seq<Config>, except: int) {
    forall i, j :: 0 <= i < j < |s| && i != except && j != except && s[i].fmt == s[j].fmt ==>
      AtMost(s[j].size, s[i].size)
  }

  ghost predicate Fair(s: seq<Config>) {
    forall p: nat, f, g :: p <= |s| ==> FairAt(s, p, f, g)
  }

  /** The first element is an NV12 configuration that no other is larger than, if there is any. */
  predicate Nv12First(s: seq<Config>) {
    forall c :: c in s && c.fmt == NV12 ==> s[0].fmt == NV12 && AtMost(c.size, s[0].size)
  }

  lemma DrainedDescends(b: seq<Bucket>)
    requires IsMap(b) && forall f :: Sorted(b, f)
    ensures DescendsByFormat(Drained(b), -1)
  {
    var s := Drained(b);
    forall i, j | 0 <= i < j < |s| && s[i].fmt == s[j].fmt
      ensures AtMost(s[j].size, s[i].size)
    {
      assert Sorted(b, s[i].fmt);
      DrainedOf(b, s[i].fmt);
      BackwardsDescends(Lookup(b, s[i].fmt));
      DescendingPairs(s, i, j);
    }
  }

  lemma DrainedIsFair(b: seq<Bucket>)
    requires IsMap(b)
    ensures Fair(Drained(b))
  {
    forall p: nat, f, g | p <= |Drained(b)| ensures FairAt(Drained(b), p, f, g) {
      DrainIsFair(b, p, f, g);
    }
  }

  /** The first configurations are filed: in buckets, or put aside for JPEG. */
  predicate Filed(b: seq<Bucket>, aside: Option<Config>, unsorted: seq<Config>, jpeg: Option<AndroidStream>) {
    aside == JpegOf(unsorted, jpeg) && IsMap(b) && Contents(b) + AsMultiset(aside) == multiset(unsorted)
  }

  predicate GoesAside(c: Config, aside: Option<Config>, jpeg: Option<AndroidStream>) {
    jpeg.Some? && aside.None? && HasStream(c, jpeg.value)
  }

  lemma FiledNext(
      b: seq<Bucket>, aside: Option<Config>, unsorted: seq<Config>, jpeg: Option<AndroidStream>, c: Config)
    requires Filed(b, aside, unsorted, jpeg)
    ensures if GoesAside(c, aside, jpeg) then Filed(b, Some(c), unsorted + [c], jpeg)
      else Filed(Add(b, c), aside, unsorted + [c], jpeg)
  {
    JpegOfPush(unsorted, c, jpeg);
    MultisetConcat(unsorted, [c]);
    OneMore(Contents(b), c, aside, multiset(unsorted));
    AddKeepsMap(b, c);
  }

  /** One more configuration, put aside or put into a bucket. */
  lemma OneMore(contents: multiset<Config>, c: Config, jpeg: Option<Config>, seen: multiset<Config>)
    requires contents + AsMultiset(jpeg) == seen
    ensures (contents + multiset{c}) + AsMultiset(jpeg) == seen + multiset{c}
    ensures jpeg == None ==> contents + AsMultiset(Some(c)) == seen + multiset{c}
  {
    Regroup(contents, multiset{c}, AsMultiset(jpeg), multiset{});
    PlusNothing(contents);
  }

  /** Sort the configurations into buckets, but for the one that serves the JPEG stream. */
  method FillBuckets(unsorted: seq<Config>, jpeg: Option<AndroidStream>)
    returns (b: seq<Bucket>, jpegConfig: Option<Config>)
    ensures Filed(b, jpegConfig, unsorted, jpeg)
  {
    b, jpegConfig := [], None;
    TakeAll(unsorted);
    for i := 0 to |unsorted|
      invariant Filed(b, jpegConfig, unsorted[..i], jpeg)
    {
      var c := unsorted[i];
      TakeNext(unsorted, i);
      FiledNext(b, jpegConfig, unsorted[..i], jpeg, c);
      if jpeg.Some? && jpegConfig.None? && HasStream(c, jpeg.value) {
        jpegConfig := Some(c);
      } else {
        b := Add(b, c);
      }
    }
  }

  /** The map after the largest NV12 configuration is taken out, if there is one. */
  function WithoutNv12(b: seq<Bucket>): seq<Bucket>
    requires IsMap(b)
  {
    if Lookup(b, NV12) == [] then b else PopFormat(b, NV12)
  }

  function LargestNv12(b: seq<Bucket>): Option<Config> {
    var from := Lookup(b, NV12);
    if from == [] then None else Some(from[|from| - 1])
  }

  /** The configurations put first: the largest NV12 one and the one for JPEG. */
  function Heads(largest: Option<Config>, jpeg: Option<Config>): seq<Config> {
    if largest.None? then (if jpeg.None? then [] else [jpeg.value])
    else if jpeg.None? then [largest.value]
    else if JpegLeads(largest.value, jpeg.value) then [jpeg.value, largest.value]
    else [largest.value, jpeg.value]
  }

  predicate JpegLeads(largest: Config, jpeg: Config) {
    jpeg.fmt == NV12 && Less(largest.size, jpeg.size)
  }

  /** Where among the heads the configuration for JPEG is. */
  function JpegPosition(largest: Option<Config>, jpeg: Option<Config>): int {
    if jpeg.None? then -1
    else if largest.Some? && !JpegLeads(largest.value, jpeg.value) then 1
    else 0
  }

  lemma HeadsContents(largest: Option<Config>, jpeg: Option<Config>)
    ensures multiset(Heads(largest, jpeg)) == AsMultiset(largest) + AsMultiset(jpeg)
  {
  }

  lemma HeadsPositions(largest: Option<Config>, jpeg: Option<Config>)
    ensures var head, at := Heads(largest, jpeg), JpegPosition(largest, jpeg);
      && |head| <= 2
      && (if jpeg.None? then at == -1 else 0 <= at < |head| && head[at] == jpeg.value)
      && (forall i :: 0 <= i < |head| && i != at ==> largest.Some? && head[i] == largest.value)
      && (|head| == 2 ==> jpeg.Some?)
  {
  }

  predicate Sorted(b: seq<Bucket>, f: PixelFormat) {
    BySize(Lookup(b, f))
  }

  lemma WithoutNv12Map(b: seq<Bucket>)
    requires IsMap(b)
    ensures IsMap(WithoutNv12(b))
    ensures Contents(WithoutNv12(b)) + AsMultiset(LargestNv12(b)) == Contents(b)
    ensures LargestNv12(b).Some? ==> LargestNv12(b).value.fmt == NV12
  {
    LookupIsPart(b, NV12);
    if Lookup(b, NV12) != [] {
      PopFormatKeepsMap(b, NV12);
      assert LargestNv12(b).value in Lookup(b, NV12);
    }
  }

  lemma WithoutNv12Sorted(b: seq<Bucket>, f: PixelFormat)
    requires IsMap(b) && Sorted(b, f)
    ensures Sorted(WithoutNv12(b), f)
  {
    if Lookup(b, NV12) != [] {
      PopFormatLookup(b, NV12, f);
    }
  }

  lemma {:induction false} Nv12Remaining(b: seq<Bucket>, c: Config)
    requires IsMap(b) && Sorted(b, NV12)
    requires c in Contents(WithoutNv12(b)) && c.fmt == NV12
    ensures LargestNv12(b).Some? && AtMost(c.size, LargestNv12(b).value.size)
  {
    RemainsBehind(b, c);
    LastCovers(Lookup(b, NV12), c);
  }

  lemma RemainsBehind(b: seq<Bucket>, c: Config)
    requires IsMap(b) && c in Contents(WithoutNv12(b)) && c.fmt == NV12
    ensures var from := Lookup(b, NV12); from != [] && c in from[..|from| - 1]
  {
    WithoutNv12Map(b);
    LookupIsPart(WithoutNv12(b), NV12);
    if Lookup(b, NV12) != [] {
      PopFormatLookup(b, NV12, NV12);
    }
  }

  lemma LastCovers(from: seq<Config>, c: Config)
    requires BySize(from) && from != [] && c in from[..|from| - 1]
    ensures AtMost(c.size, from[|from| - 1].size)
  {
    var k :| 0 <= k < |from| - 1 && from[..|from| - 1][k] == c;
    LastIsLargest(from, k);
  }

  /** What the order of the result promises. */
  ghost predicate Planned(unsorted: seq<Config>, jpeg: Option<Config>, head: seq<Config>, tail: seq<Config>, at: int) {
    && multiset(head + tail) == multiset(unsorted)
    && |head| <= 2
    && (if jpeg.None? then at == -1 else 0 <= at < |head| && head[at] == jpeg.value)
    && Nv12First(head + tail)
    && DescendsByFormat(head + tail, at)
    && Fair(tail)
  }

  /** No NV12 configuration of s is larger than the largest one kept apart. */
  predicate Below(s: seq<Config>, largest: Option<Config>) {
    forall c :: c in s && c.fmt == NV12 ==> largest.Some? && AtMost(c.size, largest.value.size)
  }

  lemma HeadIsLargest(largest: Option<Config>, jpeg: Option<Config>, tail: seq<Config>)
    requires Below(tail, largest) && (largest.Some? ==> largest.value.fmt == NV12)
    ensures Nv12First(Heads(largest, jpeg) + tail)
  {
    var head := Heads(largest, jpeg);
    var s: seq<Config> := head + tail;
    forall c: Config | c in s && c.fmt == NV12
      ensures s[0].fmt == NV12 && AtMost(c.size, s[0].size)
    {
      LessIsStrictWeak(c.size, c.size, c.size);
      if largest.Some? {
        LessIsStrictWeak(c.size, largest.value.size, head[0].size);
        LessIsStrictWeak(largest.value.size, head[0].size, largest.value.size);
      }
    }
  }

  lemma HeadsDescend(largest: Option<Config>, jpeg: Option<Config>, tail: seq<Config>)
    requires Below(tail, largest) && (largest.Some? ==> largest.value.fmt == NV12)
    requires DescendsByFormat(tail, -1)
    ensures DescendsByFormat(Heads(largest, jpeg) + tail, JpegPosition(largest, jpeg))
  {
    HeadsPositions(largest, jpeg);
    var head, at := Heads(largest, jpeg), JpegPosition(largest, jpeg);
    var s: seq<Config> := head + tail;
    forall i, j | 0 <= i < j < |s| && i != at && j != at && s[i].fmt == s[j].fmt
      ensures AtMost(s[j].size, s[i].size)
    {
      assert j >= |head| && s[j] == tail[j - |head|];
      assert s[j] in tail;
    }
  }

  lemma TailIsBelow(b: seq<Bucket>)
    requires IsMap(b) && Sorted(b, NV12) && IsMap(WithoutNv12(b))
    ensures Below(Drained(WithoutNv12(b)), LargestNv12(b))
  {
    var tail := Drained(WithoutNv12(b));
    DrainedContents(WithoutNv12(b));
    forall c | c in tail && c.fmt == NV12
      ensures LargestNv12(b).Some? && AtMost(c.size, LargestNv12(b).value.size)
    {
      assert c in multiset(tail);
      Nv12Remaining(b, c);
    }
  }

  lemma OutContents(b: seq<Bucket>, jpeg: Option<Config>)
    requires IsMap(b) && IsMap(WithoutNv12(b))
    ensures multiset(Heads(LargestNv12(b), jpeg) + Drained(WithoutNv12(b))) == Contents(b) + AsMultiset(jpeg)
  {
    var l, tail := LargestNv12(b), Drained(WithoutNv12(b));
    WithoutNv12Map(b);
    DrainedContents(WithoutNv12(b));
    HeadsContents(l, jpeg);
    MultisetConcat(Heads(l, jpeg), tail);
    Regroup(Contents(WithoutNv12(b)), AsMultiset(l), AsMultiset(jpeg), multiset{});
  }

  /** The heads and what is drained after them have the order promised. */
  lemma HeadsAndTail(b: seq<Bucket>, jpeg: Option<Config>, unsorted: seq<Config>)
    requires IsMap(b) && forall f :: Sorted(b, f)
    requires Contents(b) + AsMultiset(jpeg) == multiset(unsorted)
    ensures IsMap(WithoutNv12(b))
    ensures var l := LargestNv12(b);
      Planned(unsorted, jpeg, Heads(l, jpeg), Drained(WithoutNv12(b)), JpegPosition(l, jpeg))
  {
    WithoutNv12Map(b);
    forall f ensures Sorted(WithoutNv12(b), f) {
      WithoutNv12Sorted(b, f);
    }
    OutContents(b, jpeg);
    HeadsPositions(LargestNv12(b), jpeg);
    TailIsBelow(b);
    HeadIsLargest(LargestNv12(b), jpeg, Drained(WithoutNv12(b)));
    DrainedDescends(WithoutNv12(b));
    HeadsDescend(LargestNv12(b), jpeg, Drained(WithoutNv12(b)));
    DrainedIsFair(WithoutNv12(b));
  }

  /**
   * Reorder the configurations.  It fails, with a fatal log message, only when a JPEG stream is
   * given that no configuration serves.
   */
  method SortConfigs(unsorted: seq<Config>, jpeg: Option<AndroidStream>)
    returns (ok: bool, sorted: seq<Config>, ghost head: seq<Config>, ghost tail: seq<Config>, ghost at: int)
    ensures ok <==> jpeg.None? || exists c :: c in unsorted && HasStream(c, jpeg.value)
    ensures ok ==> sorted == head + tail && Planned(unsorted, JpegOf(unsorted, jpeg), head, tail, at)
  {
    JpegOfIsThere(unsorted, jpeg);
    sorted, head, tail, at := [], [], [], -1;
    var b, jpegConfig := FillBuckets(unsorted, jpeg);
    if jpeg.Some? && jpegConfig.None? {
      return false, [], [], [], -1;
    }
    ok := true;
    ghost var filled := b;
    b := SortBuckets(b);
    SortedBucketsMap(b, filled);
    forall f ensures Sorted(b, f) {
      SortedBucketsLookup(b, filled, f);
    }
    HeadsAndTail(b, jpegConfig, unsorted);
    head, tail := Heads(LargestNv12(b), jpegConfig), Drained(WithoutNv12(b));
    at := JpegPosition(LargestNv12(b), jpegConfig);
    b, sorted := PutHeads(b, jpegConfig);
    sorted := Drain(b, sorted);
  }

  /** The part between sorting the buckets and draining them. */
  method PutHeads(b: seq<Bucket>, jpegConfig: Option<Config>) returns (b': seq<Bucket>, sorted: seq<Config>)
    requires IsMap(b)
    ensures b' == WithoutNv12(b) && sorted == Heads(LargestNv12(b), jpegConfig)
  {
    var left := jpegConfig;
    b', sorted := b, [];
    var nv12 := Lookup(b, NV12);
    if nv12 != [] {
      var largest := nv12[|nv12| - 1];
      if left.Some? && left.value.fmt == NV12 && Less(largest.size, left.value.size) {
        sorted := sorted + [left.value];
        left := None;
      }
      sorted := sorted + [largest];
      b' := PopFormat(b, NV12);
    }
    if left.Some? {
      sorted := sorted + [left.value];
      left := None;
    }
  }
}
