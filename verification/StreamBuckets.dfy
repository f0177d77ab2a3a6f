/**
 * The map of buckets that sortCamera3StreamConfigs works on: one vector of configurations for each
 * pixel format, in the order of the formats.
 */
module StreamBuckets {
  import opened Machine
  import opened Seqs
  import opened Sizes

  /** A PixelFormat, fourcc first and modifier second, as one number; its order is operator<. */
  type PixelFormat = nat

  /** DRM_FORMAT_NV12 ('N', 'V', '1', '2') with no modifier. */
  const NV12: PixelFormat := 0x3231_564E_0000_0000_0000_0000

  lemma Nv12Code()
    ensures NV12 == ('N' as int + 0x100 * 'V' as int + 0x1_0000 * '1' as int + 0x100_0000 * '2' as int)
      * 0x1_0000_0000_0000_0000
  {
  }

  /** The Android side of a stream; id stands for its address. */
  datatype AndroidStream = AndroidStream(id: nat, width: U32, height: U32, format: int, rotated: bool)

  datatype Kind = Direct | Internal | Mapped

  datatype StreamRef = StreamRef(stream: AndroidStream, kind: Kind)

  datatype Config = Config(size: Size, fmt: PixelFormat, streams: seq<StreamRef>)

  datatype Bucket = Bucket(fmt: PixelFormat, configs: seq<Config>)

  // ----- the map -----

  predicate AllOf(configs: seq<Config>, f: PixelFormat) {
    forall c :: c in configs ==> c.fmt == f
  }

  /** Formats strictly increase; every bucket holds something, all of its own format. */
  predicate IsMap(b: seq<Bucket>) {
    b == [] ||
    (b[0].configs != [] && AllOf(b[0].configs, b[0].fmt) && Above(b[1..], b[0].fmt) && IsMap(b[1..]))
  }

  predicate Above(b: seq<Bucket>, f: PixelFormat) {
    forall x :: x in b ==> f < x.fmt
  }

  function Contents(b: seq<Bucket>): multiset<Config> {
    if b == [] then multiset{} else multiset(b[0].configs) + Contents(b[1..])
  }

  /** The configurations of format f. */
  function Lookup(b: seq<Bucket>, f: PixelFormat): seq<Config> {
    if b == [] then [] else if b[0].fmt == f then b[0].configs else Lookup(b[1..], f)
  }

  lemma {:induction false} LookupAbsent(b: seq<Bucket>, f: PixelFormat)
    requires forall x :: x in b ==> x.fmt != f
    ensures Lookup(b, f) == []
  {
    if b != [] {
      LookupAbsent(b[1..], f);
    }
  }

  /** What a format's bucket holds, in one place and as part of everything. */
  lemma {:induction false} LookupIsPart(b: seq<Bucket>, f: PixelFormat)
    requires IsMap(b)
    ensures AllOf(Lookup(b, f), f)
    ensures multiset(Lookup(b, f)) <= Contents(b)
    ensures forall c :: c in Contents(b) && c.fmt == f ==> c in Lookup(b, f)
    decreases b
  {
    if b != [] {
      LookupIsPart(b[1..], f);
      if b[0].fmt == f {
        LookupAbsent(b[1..], f);
      }
    }
  }

  /** map[c.fmt].push_back(c) */
  function Add(b: seq<Bucket>, c: Config): seq<Bucket> {
    if b == [] || c.fmt < b[0].fmt then [Bucket(c.fmt, [c])] + b
    else if c.fmt == b[0].fmt then [Bucket(c.fmt, b[0].configs + [c])] + b[1..]
    else [b[0]] + Add(b[1..], c)
  }

  lemma {:induction false} AddAbove(b: seq<Bucket>, c: Config, f: PixelFormat)
    requires Above(b, f) && f < c.fmt
    ensures Above(Add(b, c), f)
    decreases b
  {
    if b != [] && c.fmt > b[0].fmt {
      AddAbove(b[1..], c, f);
    }
  }

  lemma {:induction false} AddKeepsMap(b: seq<Bucket>, c: Config)
    requires IsMap(b)
    ensures IsMap(Add(b, c)) && Contents(Add(b, c)) == Contents(b) + multiset{c}
    decreases b
  {
    if b == [] || c.fmt < b[0].fmt {
      var x := Bucket(c.fmt, [c]);
      assert ([x] + b)[1..] == b;
      assert b != [] ==> b == [b[0]] + b[1..];
    } else if c.fmt == b[0].fmt {
      var x := Bucket(c.fmt, b[0].configs + [c]);
      assert ([x] + b[1..])[1..] == b[1..];
    } else {
      AddKeepsMap(b[1..], c);
      AddAbove(b[1..], c, b[0].fmt);
      assert ([b[0]] + Add(b[1..], c))[1..] == Add(b[1..], c);
    }
  }

  // ----- taking the last configuration of one bucket, or of all -----

  function Last(x: Bucket): Config
    requires x.configs != []
  {
    x.configs[|x.configs| - 1]
  }

  /** The bucket x in front of b after a pop_back; it is erased if that leaves it empty. */
  function Shrink(x: Bucket, b: seq<Bucket>): seq<Bucket>
    requires x.configs != []
  {
    if |x.configs| == 1 then b else [x.(configs := x.configs[..|x.configs| - 1])] + b
  }

  /** x can stand in front of b. */
  predicate Heads(x: Bucket, b: seq<Bucket>) {
    x.configs != [] && AllOf(x.configs, x.fmt) && Above(b, x.fmt) && IsMap(b)
  }

  lemma ShrinkKeepsMap(x: Bucket, b: seq<Bucket>)
    requires Heads(x, b)
    ensures IsMap(Shrink(x, b))
  {
    if |x.configs| > 1 {
      var y := x.(configs := x.configs[..|x.configs| - 1]);
      assert forall c :: c in y.configs ==> c in x.configs;
      assert ([y] + b)[1..] == b;
    }
  }

  lemma ShrinkContents(x: Bucket, b: seq<Bucket>)
    requires Heads(x, b)
    ensures Contents(Shrink(x, b)) + multiset{Last(x)} == multiset(x.configs) + Contents(b)
  {
    var init := x.configs[..|x.configs| - 1];
    assert x.configs == init + [Last(x)];
    if |x.configs| > 1 {
      assert ([x.(configs := init)] + b)[1..] == b;
    } else {
      assert init == [];
    }
  }

  lemma ShrinkLookup(x: Bucket, b: seq<Bucket>, f: PixelFormat)
    requires Heads(x, b)
    ensures Lookup(Shrink(x, b), f) ==
      if f == x.fmt then x.configs[..|x.configs| - 1] else Lookup(b, f)
  {
    if f == x.fmt {
      LookupAbsent(b, f);
    }
    if |x.configs| > 1 {
      assert ([x.(configs := x.configs[..|x.configs| - 1])] + b)[1..] == b;
    }
  }

  /** Take the last configuration of format f. */
  function PopFormat(b: seq<Bucket>, f: PixelFormat): seq<Bucket>
    requires IsMap(b)
  {
    if b == [] then []
    else if b[0].fmt == f then Shrink(b[0], b[1..])
    else [b[0]] + PopFormat(b[1..], f)
  }

  lemma {:induction false} PopFormatAbove(b: seq<Bucket>, f: PixelFormat, g: PixelFormat)
    requires IsMap(b) && Above(b, g)
    ensures Above(PopFormat(b, f), g)
    decreases b
  {
    if b != [] && b[0].fmt != f {
      PopFormatAbove(b[1..], f, g);
    }
  }

  lemma {:induction false} PopFormatKeepsMap(b: seq<Bucket>, f: PixelFormat)
    requires IsMap(b) && Lookup(b, f) != []
    ensures IsMap(PopFormat(b, f))
    ensures Contents(PopFormat(b, f)) + multiset{Lookup(b, f)[|Lookup(b, f)| - 1]} == Contents(b)
    decreases b
  {
    if b[0].fmt == f {
      ShrinkKeepsMap(b[0], b[1..]);
      ShrinkContents(b[0], b[1..]);
    } else {
      var rest := PopFormat(b[1..], f);
      PopFormatKeepsMap(b[1..], f);
      PopFormatAbove(b[1..], f, b[0].fmt);
      assert ([b[0]] + rest)[1..] == rest;
    }
  }

  lemma {:induction false} PopFormatLookup(b: seq<Bucket>, f: PixelFormat, g: PixelFormat)
    requires IsMap(b) && Lookup(b, f) != []
    ensures Lookup(PopFormat(b, f), g) ==
      if f == g then Lookup(b, f)[..|Lookup(b, f)| - 1] else Lookup(b, g)
    decreases b
  {
    if b[0].fmt == f {
      ShrinkLookup(b[0], b[1..], g);
    } else {
      var rest := PopFormat(b[1..], f);
      PopFormatLookup(b[1..], f, g);
      assert ([b[0]] + rest)[1..] == rest;
    }
  }

  /** One configuration from every bucket, its last, in map order. */
  function Round(b: seq<Bucket>): (r: seq<Config>)
    requires IsMap(b)
    ensures |r| == |b|
  {
    if b == [] then [] else [Last(b[0])] + Round(b[1..])
  }

  /** The map after that. */
  function Rest(b: seq<Bucket>): seq<Bucket>
    requires IsMap(b)
  {
    if b == [] then [] else Shrink(b[0], Rest(b[1..]))
  }

  lemma {:induction false} RestAbove(b: seq<Bucket>, f: PixelFormat)
    requires IsMap(b) && Above(b, f)
    ensures Above(Rest(b), f)
    decreases b
  {
    if b != [] {
      RestAbove(b[1..], f);
    }
  }

  lemma {:induction false} RestKeepsMap(b: seq<Bucket>)
    requires IsMap(b)
    ensures IsMap(Rest(b))
    decreases b
  {
    if b != [] {
      RestKeepsMap(b[1..]);
      RestAbove(b[1..], b[0].fmt);
      ShrinkKeepsMap(b[0], Rest(b[1..]));
    }
  }

  /** A round takes out of the map what it returns. */
  lemma {:induction false} RestContents(b: seq<Bucket>)
    requires IsMap(b)
    ensures Contents(Rest(b)) + multiset(Round(b)) == Contents(b)
    decreases b
  {
    if b != [] {
      RestContents(b[1..]);
      RestKeepsMap(b[1..]);
      RestAbove(b[1..], b[0].fmt);
      ShrinkContents(b[0], Rest(b[1..]));
      assert multiset(Round(b)) == multiset{Last(b[0])} + multiset(Round(b[1..]));
      Regroup(Contents(Rest(b)), multiset{Last(b[0])}, multiset(Round(b[1..])), multiset{});
      Regroup(multiset(b[0].configs), Contents(Rest(b[1..])), multiset(Round(b[1..])), multiset{});
    }
  }

  lemma {:induction false} RestLookup(b: seq<Bucket>, f: PixelFormat)
    requires IsMap(b)
    ensures var from := Lookup(b, f);
      Lookup(Rest(b), f) == if from == [] then [] else from[..|from| - 1]
    decreases b
  {
    if b != [] {
      RestLookup(b[1..], f);
      RestKeepsMap(b[1..]);
      RestAbove(b[1..], b[0].fmt);
      ShrinkLookup(b[0], Rest(b[1..]), f);
    }
  }
}
