/** CameraDevice::configureStreams, up to the validation of the configuration it builds. */
module StreamConfigure {
  import opened Seqs
  import opened Sizes
  import opened StreamBuckets
  import opened StreamSort
  import opened Wrappers

  /** HAL_PIXEL_FORMAT_BLOB: the format of a JPEG stream. */
  const BLOB := 0x21

  /** A CameraStream: the Android stream it serves, how, and the index of its configuration. */
  datatype CameraStream = CameraStream(kind: Kind, stream: AndroidStream, index: nat)

  // ----- the streams but for JPEG -----

  /** The format is one the camera maps to a valid pixel format, and no rotation is asked for. */
  predicate Usable(s: AndroidStream, formats: map<int, PixelFormat>) {
    s.format in formats && formats[s.format] >= 0x1_0000_0000_0000_0000 && !s.rotated
  }

  function DirectConfig(s: AndroidStream, formats: map<int, PixelFormat>): Config
    requires Usable(s, formats)
  {
    Config(SizeOf(s), formats[s.format], [StreamRef(s, Direct)])
  }

  function Blobs(list: seq<AndroidStream>): seq<AndroidStream> {
    if list == [] then []
    else Blobs(list[..|list| - 1]) + (if list[|list| - 1].format == BLOB then [list[|list| - 1]] else [])
  }

  predicate AllUsable(list: seq<AndroidStream>, formats: map<int, PixelFormat>) {
    forall s :: s in list ==> Usable(s, formats)
  }

  predicate Acceptable(list: seq<AndroidStream>, formats: map<int, PixelFormat>) {
    AllUsable(list, formats) && |Blobs(list)| <= 1
  }

  /**
   * A list is refused exactly if some stream has a format the camera does not map to a pixel format
   * with a fourcc, some stream asks for a rotation, or two streams are JPEG ones.
   */
  lemma {:induction false} RefusedWhen(list: seq<AndroidStream>, formats: map<int, PixelFormat>)
    ensures !Acceptable(list, formats) <==>
      || (exists s :: s in list && (s.format !in formats || formats[s.format] / 0x1_0000_0000_0000_0000 == 0))
      || (exists s :: s in list && s.rotated)
      || (exists i, j :: 0 <= i < j < |list| && list[i].format == 0x21 && list[j].format == 0x21)
  {
    OneBlob(list);
    assert AllUsable(list, formats) <==> forall s :: s in list ==> Usable(s, formats);
  }

  lemma {:induction false} OneBlob(list: seq<AndroidStream>)
    ensures Blobs(list) == [] <==> forall s :: s in list ==> s.format != 0x21
    ensures |Blobs(list)| <= 1 <==>
      forall i, j :: 0 <= i < j < |list| ==> list[i].format != 0x21 || list[j].format != 0x21
  {
    if list != [] {
      var n := |list| - 1;
      OneBlob(list[..n]);
      assert list == list[..n] + [list[n]];
    }
  }

  function DirectRefs(list: seq<AndroidStream>): seq<StreamRef> {
    if list == [] then []
    else
      DirectRefs(list[..|list| - 1])
      + (if list[|list| - 1].format == BLOB then [] else [StreamRef(list[|list| - 1], Direct)])
  }

  /** The configurations of the streams but for JPEG, in the order of the request. */
  function DirectList(list: seq<AndroidStream>, formats: map<int, PixelFormat>): seq<Config>
    requires AllUsable(list, formats)
  {
    if list == [] then []
    else
      DirectList(list[..|list| - 1], formats)
      + (if list[|list| - 1].format == BLOB then [] else [DirectConfig(list[|list| - 1], formats)])
  }

  /** Every configuration serves one stream, directly, with its size and pixel format. */
  predicate AllDirect(configs: seq<Config>, formats: map<int, PixelFormat>) {
    forall c :: c in configs ==> DirectOne(c, formats)
  }

  predicate DirectOne(c: Config, formats: map<int, PixelFormat>) {
    && Fits(c) && |c.streams| == 1 && c.streams[0].kind == Direct
    && OfFormat(c, c.streams[0].stream, formats)
  }

  /** Every stream a configuration serves has the size of the configuration. */
  predicate Fits(c: Config) {
    forall r :: r in c.streams ==> SizeOf(r.stream) == c.size
  }

  /** The configuration has the pixel format that the camera has for the stream's format. */
  predicate OfFormat(c: Config, s: AndroidStream, formats: map<int, PixelFormat>) {
    s.format in formats && c.fmt == formats[s.format]
  }

  function SizeOf(s: AndroidStream): Size {
    Size(s.width, s.height)
  }

  /** The streams of all the configurations together. */
  function Bag(configs: seq<Config>): multiset<StreamRef> {
    if configs == [] then multiset{}
    else Bag(configs[..|configs| - 1]) + multiset(configs[|configs| - 1].streams)
  }

  lemma BagPush(configs: seq<Config>, c: Config)
    ensures Bag(configs + [c]) == Bag(configs) + multiset(c.streams)
  {
    InitLast(configs, c);
  }

  lemma {:induction false} BlobsPush(list: seq<AndroidStream>, i: nat)
    requires i < |list|
    ensures Blobs(list[..i + 1]) == Blobs(list[..i]) + (if list[i].format == BLOB then [list[i]] else [])
    ensures DirectRefs(list[..i + 1]) ==
      DirectRefs(list[..i]) + (if list[i].format == BLOB then [] else [StreamRef(list[i], Direct)])
    ensures |Blobs(list[..i + 1])| <= |Blobs(list)|
    decreases |list| - i
  {
    TakeNext(list, i);
    InitLast(list[..i], list[i]);
    if i + 1 < |list| {
      BlobsPush(list, i + 1);
    } else {
      TakeAll(list);
    }
  }

  lemma DirectListPush(list: seq<AndroidStream>, i: nat, formats: map<int, PixelFormat>)
    requires i < |list| && AllUsable(list[..i], formats) && Usable(list[i], formats)
    ensures AllUsable(list[..i + 1], formats)
    ensures DirectList(list[..i + 1], formats) == DirectList(list[..i], formats)
      + (if list[i].format == BLOB then [] else [DirectConfig(list[i], formats)])
  {
    TakeNext(list, i);
    InitLast(list[..i], list[i]);
  }

  /** The first pass: refuse the request, or configure all streams but the one for JPEG. */
  method DirectConfigs(list: seq<AndroidStream>, formats: map<int, PixelFormat>)
    returns (ok: bool, configs: seq<Config>, jpeg: Option<AndroidStream>)
    ensures ok <==> Acceptable(list, formats)
    ensures ok ==> configs == DirectList(list, formats) && Blobs(list) == BlobsSeen(jpeg)
  {
    ok, configs, jpeg := true, [], None;
    TakeAll(list);
    for i := 0 to |list|
      invariant ok && AllUsable(list[..i], formats)
      invariant configs == DirectList(list[..i], formats) && Blobs(list[..i]) == BlobsSeen(jpeg)
    {
      var s := list[i];
      BlobsPush(list, i);
      if !Usable(s, formats) || (s.format == BLOB && jpeg.Some?) {
        assert s in list;
        return false, configs, jpeg;
      }
      DirectListPush(list, i, formats);
      if s.format == BLOB {
        jpeg := Some(s);
      } else {
        configs := configs + [DirectConfig(s, formats)];
      }
    }
  }

  function BlobsSeen(jpeg: Option<AndroidStream>): seq<AndroidStream> {
    if jpeg.Some? then [jpeg.value] else []
  }

  /** Each stream but the one for JPEG has a configuration of its own. */
  lemma {:induction false} DirectListServes(list: seq<AndroidStream>, formats: map<int, PixelFormat>)
    requires AllUsable(list, formats)
    ensures ServesEach(DirectList(list, formats), DirectRefs(list), formats)
  {
    if list != [] {
      var n := |list| - 1;
      DirectListServes(list[..n], formats);
      assert list[n] in list;
      if list[n].format != BLOB {
        DirectPush(DirectList(list[..n], formats), DirectRefs(list[..n]), list[n], formats);
      } else {
        ConcatEmpty(DirectList(list[..n], formats));
        ConcatEmpty(DirectRefs(list[..n]));
      }
    }
  }

  /** The configurations serve exactly the references, one each. */
  predicate ServesEach(configs: seq<Config>, refs: seq<StreamRef>, formats: map<int, PixelFormat>) {
    AllDirect(configs, formats) && Bag(configs) == multiset(refs) && |configs| == |refs|
  }

  lemma DirectPush(
      configs: seq<Config>, refs: seq<StreamRef>, s: AndroidStream, formats: map<int, PixelFormat>)
    requires ServesEach(configs, refs, formats) && Usable(s, formats)
    ensures ServesEach(configs + [DirectConfig(s, formats)], refs + [StreamRef(s, Direct)], formats)
  {
    var c, ref := DirectConfig(s, formats), StreamRef(s, Direct);
    BagPush(configs, c);
    MultisetConcat(refs, [ref]);
    assert c.streams == [ref] && DirectOne(c, formats);
    DirectBesides(configs, c, formats);
  }

  lemma DirectBesides(configs: seq<Config>, c: Config, formats: map<int, PixelFormat>)
    requires AllDirect(configs, formats) && DirectOne(c, formats)
    ensures AllDirect(configs + [c], formats)
  {
  }

  // ----- the JPEG stream -----

  /** The first configuration of a size; the number of configurations when there is none. */
  function Match(configs: seq<Config>, size: Size): (i: nat)
    ensures i <= |configs| && (i < |configs| ==> configs[i].size == size)
    ensures forall k :: 0 <= k < i ==> configs[k].size != size
  {
    if configs == [] then 0
    else
      var n := |configs| - 1;
      var i := Match(configs[..n], size);
      if i < n then i else if configs[n].size == size then n else n + 1
  }

  /** One more reference in a configuration. */
  function With(c: Config, ref: StreamRef): Config {
    c.(streams := c.streams + [ref])
  }

  /** The JPEG stream is encoded from a stream of its own size if there is one. */
  function JpegKind(configs: seq<Config>, jpeg: AndroidStream): Kind {
    if Match(configs, SizeOf(jpeg)) < |configs| then Mapped else Internal
  }

  /** The configurations with the JPEG stream in its place; all others are as they were. */
  function Attached(configs: seq<Config>, jpeg: AndroidStream): seq<Config> {
    var i, ref := Match(configs, SizeOf(jpeg)), StreamRef(jpeg, JpegKind(configs, jpeg));
    if i < |configs| then configs[i := With(configs[i], ref)]
    else configs + [Config(SizeOf(jpeg), NV12, [ref])]
  }

  /** Serve the JPEG stream from the first configuration of its size, or from a new one. */
  method AttachJpeg(configs: seq<Config>, jpeg: AndroidStream) returns (configs': seq<Config>)
    ensures configs' == Attached(configs, jpeg)
    ensures var i := Match(configs, Size(jpeg.width, jpeg.height));
      if i == |configs| then
        configs' == configs + [Config(Size(jpeg.width, jpeg.height), NV12, [StreamRef(jpeg, Internal)])]
      else
        && |configs'| == |configs| && configs'[i].streams == configs[i].streams + [StreamRef(jpeg, Mapped)]
        && configs'[i].size == configs[i].size && configs'[i].fmt == configs[i].fmt
        && (forall k :: 0 <= k < |configs| && k != i ==> configs'[k] == configs[k])
  {
    var i := 0;
    while i < |configs| && configs[i].size != SizeOf(jpeg)
      invariant 0 <= i <= |configs|
      invariant forall k :: 0 <= k < i ==> configs[k].size != SizeOf(jpeg)
    {
      i := i + 1;
    }
    if i < |configs| {
      configs' := configs[i := With(configs[i], StreamRef(jpeg, Mapped))];
    } else {
      configs' := configs + [Config(SizeOf(jpeg), NV12, [StreamRef(jpeg, Internal)])];
    }
  }

  /** What the JPEG stream adds. */
  lemma AttachedServes(configs: seq<Config>, jpeg: AndroidStream, formats: map<int, PixelFormat>)
    requires AllDirect(configs, formats)
    ensures Served(Attached(configs, jpeg), formats)
    ensures Bag(Attached(configs, jpeg)) == Bag(configs) + multiset{StreamRef(jpeg, JpegKind(configs, jpeg))}
    ensures exists c :: c in Attached(configs, jpeg) && HasStream(c, jpeg)
  {
    if Match(configs, SizeOf(jpeg)) < |configs| {
      MappedServes(configs, Match(configs, SizeOf(jpeg)), jpeg, formats);
    } else {
      InternalServes(configs, jpeg, formats);
    }
  }

  lemma MappedServes(
      configs: seq<Config>, i: nat, jpeg: AndroidStream, formats: map<int, PixelFormat>)
    requires AllDirect(configs, formats) && i < |configs| && configs[i].size == SizeOf(jpeg)
    ensures var configs' := configs[i := With(configs[i], StreamRef(jpeg, Mapped))];
      && Served(configs', formats)
      && Bag(configs') == Bag(configs) + multiset{StreamRef(jpeg, Mapped)}
      && exists c :: c in configs' && HasStream(c, jpeg)
  {
    var ref := StreamRef(jpeg, Mapped);
    assert configs[i] in configs;
    BagUpdate(configs, i, ref);
    WithServes(configs[i], ref, formats);
    forall x | x in configs[i := With(configs[i], ref)] ensures ServedOne(x, formats) {
      if x != With(configs[i], ref) {
        assert x in configs;
        DirectServes(x, formats);
      }
    }
    assert configs[i := With(configs[i], ref)][i] == With(configs[i], ref);
  }

  lemma WithServes(c: Config, ref: StreamRef, formats: map<int, PixelFormat>)
    requires DirectOne(c, formats) && ref.kind == Mapped && SizeOf(ref.stream) == c.size
    ensures ServedOne(With(c, ref), formats) && HasStream(With(c, ref), ref.stream)
  {
    var x := With(c, ref);
    assert x.streams == [c.streams[0], ref];
    assert x.streams[0] in x.streams && x.streams[1] in x.streams;
    assert c.streams[0] in c.streams;
  }

  lemma DirectServes(c: Config, formats: map<int, PixelFormat>)
    requires DirectOne(c, formats)
    ensures ServedOne(c, formats)
  {
    assert c.streams == [c.streams[0]];
  }

  lemma InternalServes(configs: seq<Config>, jpeg: AndroidStream, formats: map<int, PixelFormat>)
    requires AllDirect(configs, formats)
    ensures var configs' := configs + [Config(SizeOf(jpeg), NV12, [StreamRef(jpeg, Internal)])];
      && Served(configs', formats)
      && Bag(configs') == Bag(configs) + multiset{StreamRef(jpeg, Internal)}
      && exists c :: c in configs' && HasStream(c, jpeg)
  {
    var ref := StreamRef(jpeg, Internal);
    var c := Config(SizeOf(jpeg), NV12, [ref]);
    BagPush(configs, c);
    assert ref in c.streams && HasStream(c, jpeg);
    assert (configs + [c])[|configs|] == c;
    forall x | x in configs + [c] ensures ServedOne(x, formats) {
      if x != c {
        assert x in configs;
        DirectServes(x, formats);
      }
    }
  }

  /** What each configuration looks like when the JPEG stream has its place. */
  predicate Served(configs: seq<Config>, formats: map<int, PixelFormat>) {
    forall c :: c in configs ==> ServedOne(c, formats)
  }

  /**
   * A configuration serves at least one stream, all of its own size.  It has the pixel format of a
   * Direct stream; a Mapped stream comes beside a Direct one, an Internal one alone and in NV12.
   */
  predicate ServedOne(c: Config, formats: map<int, PixelFormat>) {
    && Fits(c) && c.streams != []
    && (forall r :: r in c.streams && r.kind == Direct ==> OfFormat(c, r.stream, formats))
    && (forall r :: r in c.streams && r.kind == Mapped ==> exists d :: d in c.streams && d.kind == Direct)
    && (forall r :: r in c.streams && r.kind == Internal ==> |c.streams| == 1 && c.fmt == NV12)
  }

  lemma {:induction false} BagConcat(a: seq<Config>, b: seq<Config>)
    ensures Bag(a + b) == Bag(a) + Bag(b)
  {
    if b == [] {
      ConcatEmpty(a);
    } else {
      var n := |b| - 1;
      TakeNext(b, n);
      TakeAll(b);
      Assoc(a, b[..n], [b[n]]);
      BagPush(a + b[..n], b[n]);
      BagConcat(a, b[..n]);
    }
  }

  /** What the configuration in the middle serves, apart. */
  lemma BagMiddle(a: seq<Config>, x: Config, b: seq<Config>)
    ensures Bag(a + [x] + b) == Bag(a + b) + multiset(x.streams)
  {
    BagConcat(a + [x], b);
    BagPush(a, x);
    BagConcat(a, b);
    Regroup(Bag(a), multiset(x.streams), Bag(b), multiset{});
  }

  lemma {:induction false} BagWithout(configs: seq<Config>, i: nat)
    requires i < |configs|
    ensures Bag(configs) == Bag(Without(configs, i)) + multiset(configs[i].streams)
    ensures multiset(configs) == multiset(Without(configs, i)) + multiset{configs[i]}
  {
    var a, x, b := configs[..i], configs[i], configs[i + 1..];
    assert configs == a + [x] + b;
    BagMiddle(a, x, b);
  }

  /** One more stream served by one of the configurations. */
  lemma BagUpdate(configs: seq<Config>, i: nat, ref: StreamRef)
    requires i < |configs|
    ensures Bag(configs[i := With(configs[i], ref)]) == Bag(configs) + multiset{ref}
  {
    var a, x, b := configs[..i], configs[i], configs[i + 1..];
    assert configs == a + [x] + b;
    assert configs[i := With(x, ref)] == a + [With(x, ref)] + b;
    BagMiddle(a, x, b);
    BagMiddle(a, With(x, ref), b);
    MultisetConcat(x.streams, [ref]);
    Regroup(Bag(a + b), multiset(x.streams), multiset{ref}, multiset{});
  }

  /** Reordering the configurations does not change what they serve. */
  lemma {:induction false} BagPermutes(a: seq<Config>, b: seq<Config>)
    requires multiset(a) == multiset(b)
    ensures Bag(a) == Bag(b)
  {
    if a == [] {
      assert multiset(b) == multiset{};
      assert b == [];
    } else {
      var n := |a| - 1;
      TakeNext(a, n);
      TakeAll(a);
      assert a[n] in multiset(b);
      var k :| 0 <= k < |b| && b[k] == a[n];
      BagWithout(b, k);
      Cancel(multiset(a[..n]), multiset(Without(b, k)), a[n]);
      BagPermutes(a[..n], Without(b, k));
    }
  }

  // ----- the CameraStreams -----

  function RefsOf(streams: seq<CameraStream>): (r: seq<StreamRef>)
    ensures |r| == |streams|
  {
    if streams == [] then []
    else
      var last := streams[|streams| - 1];
      RefsOf(streams[..|streams| - 1]) + [StreamRef(last.stream, last.kind)]
  }

  lemma RefsOfPush(streams: seq<CameraStream>, s: CameraStream)
    ensures RefsOf(streams + [s]) == RefsOf(streams) + [StreamRef(s.stream, s.kind)]
  {
    InitLast(streams, s);
  }

  /** s is served by the configuration its index names. */
  predicate Named(s: CameraStream, configs: seq<Config>) {
    s.index < |configs| && StreamRef(s.stream, s.kind) in configs[s.index].streams
  }

  predicate AllNamed(streams: seq<CameraStream>, configs: seq<Config>) {
    forall s :: s in streams ==> Named(s, configs)
  }

  /** Every stream that one of the first n configurations serves has a CameraStream for it. */
  predicate AllEmitted(streams: seq<CameraStream>, configs: seq<Config>, n: nat)
    requires n <= |configs|
  {
    forall k :: 0 <= k < n ==> EmittedOf(streams, configs[k].streams, k)
  }

  predicate EmittedOf(streams: seq<CameraStream>, refs: seq<StreamRef>, k: nat) {
    forall r :: r in refs ==> CameraStream(r.kind, r.stream, k) in streams
  }

  lemma EmittedGrows(
      streams: seq<CameraStream>, more: seq<CameraStream>, configs: seq<Config>, n: nat)
    requires n < |configs| && AllEmitted(streams, configs, n) && streams <= more
    requires EmittedOf(more, configs[n].streams, n)
    ensures AllEmitted(more, configs, n + 1)
  {
    forall k | 0 <= k < n ensures EmittedOf(more, configs[k].streams, k) {
      assert EmittedOf(streams, configs[k].streams, k);
    }
  }

  lemma NamedPush(streams: seq<CameraStream>, s: CameraStream, configs: seq<Config>)
    requires AllNamed(streams, configs) && Named(s, configs)
    ensures AllNamed(streams + [s], configs)
  {
  }

  /** priv of every stream emitted is the index of a CameraStream that serves it. */
  predicate PrivSet(priv: map<AndroidStream, nat>, streams: seq<CameraStream>) {
    forall s :: s in streams ==>
      s.stream in priv && priv[s.stream] < |streams| && streams[priv[s.stream]].stream == s.stream
  }

  lemma PrivPush(priv: map<AndroidStream, nat>, streams: seq<CameraStream>, s: CameraStream)
    requires PrivSet(priv, streams)
    ensures PrivSet(priv[s.stream := |streams|], streams + [s])
  {
  }

  /** The streams served, configuration by configuration. */
  function Listed(configs: seq<Config>): seq<StreamRef> {
    if configs == [] then []
    else Listed(configs[..|configs| - 1]) + configs[|configs| - 1].streams
  }

  lemma {:induction false} ListedNext(configs: seq<Config>, i: nat)
    requires i < |configs|
    ensures Listed(configs[..i + 1]) == Listed(configs[..i]) + configs[i].streams
  {
    assert configs[..i + 1][..i] == configs[..i];
  }

  lemma {:induction false} ListedBag(configs: seq<Config>)
    ensures multiset(Listed(configs)) == Bag(configs)
  {
    if configs != [] {
      var n := |configs| - 1;
      ListedBag(configs[..n]);
      MultisetConcat(Listed(configs[..n]), configs[n].streams);
    }
  }

  /** Create the CameraStreams of configuration i. */
  method EmitOne(sorted: seq<Config>, i: nat, streams: seq<CameraStream>, priv: map<AndroidStream, nat>)
    returns (streams': seq<CameraStream>, priv': map<AndroidStream, nat>)
    requires i < |sorted| && AllNamed(streams, sorted) && PrivSet(priv, streams)
    ensures AllNamed(streams', sorted) && PrivSet(priv', streams')
    ensures RefsOf(streams') == RefsOf(streams) + sorted[i].streams
    ensures streams <= streams'
    ensures EmittedOf(streams', sorted[i].streams, i)
  {
    var refs := sorted[i].streams;
    streams', priv' := streams, priv;
    TakeAll(refs);
    ConcatEmpty(RefsOf(streams));
    for k := 0 to |refs|
      invariant RefsOf(streams') == RefsOf(streams) + refs[..k]
      invariant AllNamed(streams', sorted) && PrivSet(priv', streams')
      invariant streams <= streams'
      invariant EmittedOf(streams', refs[..k], i)
    {
      var s := CameraStream(refs[k].kind, refs[k].stream, i);
      TakeNext(refs, k);
      RefsOfPush(streams', s);
      Assoc(RefsOf(streams), refs[..k], [refs[k]]);
      NamedPush(streams', s, sorted);
      PrivPush(priv', streams', s);
      priv' := priv'[s.stream := |streams'|];
      streams' := streams' + [s];
    }
  }

  /** Add the configurations to the camera's and create a CameraStream for every stream served. */
  method EmitStreams(sorted: seq<Config>) returns (streams: seq<CameraStream>, priv: map<AndroidStream, nat>)
    ensures RefsOf(streams) == Listed(sorted) && multiset(RefsOf(streams)) == Bag(sorted)
    ensures AllNamed(streams, sorted) && PrivSet(priv, streams) && AllEmitted(streams, sorted, |sorted|)
  {
    streams, priv := [], map[];
    TakeAll(sorted);
    for i := 0 to |sorted|
      invariant RefsOf(streams) == Listed(sorted[..i])
      invariant AllNamed(streams, sorted) && PrivSet(priv, streams) && AllEmitted(streams, sorted, i)
    {
      ListedNext(sorted, i);
      ghost var before := streams;
      streams, priv := EmitOne(sorted, i, streams, priv);
      EmittedGrows(before, streams, sorted, i);
    }
    ListedBag(sorted);
  }

  // ----- the whole -----

  /** The references a list of Android streams comes to: Direct, and one of `kind` for JPEG. */
  function Expected(list: seq<AndroidStream>, kind: Kind): multiset<StreamRef> {
    multiset(DirectRefs(list)) + (if Blobs(list) == [] then multiset{} else multiset{StreamRef(Blobs(list)[0], kind)})
  }

  lemma {:induction false} ExpectedSize(list: seq<AndroidStream>)
    ensures |DirectRefs(list)| + |Blobs(list)| == |list|
  {
    if list != [] {
      ExpectedSize(list[..|list| - 1]);
    }
  }

  /** The JPEG stream of a request that is accepted. */
  function JpegStream(list: seq<AndroidStream>): Option<AndroidStream> {
    if Blobs(list) == [] then None else Some(Blobs(list)[0])
  }

  /** The configurations that are sorted. */
  function Offered(list: seq<AndroidStream>, formats: map<int, PixelFormat>): seq<Config>
    requires AllUsable(list, formats)
  {
    if JpegStream(list).None? then DirectList(list, formats)
    else Attached(DirectList(list, formats), JpegStream(list).value)
  }

  /** How the JPEG stream, if there is one, is served. */
  function KindIn(list: seq<AndroidStream>, formats: map<int, PixelFormat>): Kind
    requires AllUsable(list, formats)
  {
    if JpegStream(list).None? then Internal else JpegKind(DirectList(list, formats), JpegStream(list).value)
  }

  /** The configurations offered serve what is requested: one each for the Direct streams, and an Internal one. */
  lemma OfferedServes(list: seq<AndroidStream>, formats: map<int, PixelFormat>)
    requires AllUsable(list, formats)
    ensures Served(Offered(list, formats), formats)
    ensures Bag(Offered(list, formats)) == Expected(list, KindIn(list, formats))
    ensures |Offered(list, formats)| ==
      |DirectRefs(list)| + (if Blobs(list) != [] && KindIn(list, formats) == Internal then 1 else 0)
    ensures JpegStream(list).Some? ==>
      exists c :: c in Offered(list, formats) && HasStream(c, JpegStream(list).value)
  {
    DirectListServes(list, formats);
    if JpegStream(list).Some? {
      AttachedServes(DirectList(list, formats), JpegStream(list).value, formats);
    } else {
      forall c | c in DirectList(list, formats) ensures ServedOne(c, formats) {
        DirectServes(c, formats);
      }
      PlusNothing(multiset(DirectRefs(list)));
    }
  }

  /** The configurations are those offered, in the order that sortCamera3StreamConfigs promises. */
  ghost predicate InOrder(list: seq<AndroidStream>, formats: map<int, PixelFormat>, configs: seq<Config>)
    requires AllUsable(list, formats)
  {
    var unsorted := Offered(list, formats);
    exists head, tail, at ::
      configs == head + tail && Planned(unsorted, JpegOf(unsorted, JpegStream(list)), head, tail, at)
  }

  /** What has been configured when validation is reached. */
  ghost predicate Configured(
    list: seq<AndroidStream>, formats: map<int, PixelFormat>, configs: seq<Config>,
    streams: seq<CameraStream>, priv: map<AndroidStream, nat>)
    requires AllUsable(list, formats)
  {
    && InOrder(list, formats, configs)
    && multiset(RefsOf(streams)) == Expected(list, KindIn(list, formats))
    && AllNamed(streams, configs) && AllEmitted(streams, configs, |configs|)
    && PrivSet(priv, streams)
    && |streams| == |list|
  }

  class CameraDevice {
    const formats: map<int, PixelFormat>
    var config: seq<Config>          // the CameraConfiguration
    var streams: seq<CameraStream>
    var priv: map<AndroidStream, nat>

    constructor (formats: map<int, PixelFormat>)
      ensures this.formats == formats && streams == [] && config == [] && priv == map[]
    {
      this.formats := formats;
      config, streams, priv := [], [], map[];
    }

    /**
     * Plan the streams of the list.  `generated` says whether the camera could generate a
     * configuration.  The result is true when validation is reached; the storage reserved for
     * streams, one element for each Android stream, is then exactly full.
     */
    method ConfigureStreams(list: seq<AndroidStream>, generated: bool) returns (ok: bool)
      modifies this
      ensures ok <==> list != [] && generated && Acceptable(list, formats)
      ensures ok ==> Configured(list, formats, config, streams, priv)
      ensures !ok && (list == [] || !generated) ==> streams == old(streams)
      ensures !ok && list != [] && generated ==> streams == [] && config == []
    {
      ok := false;
      if list != [] && generated {
        var plan: Plan;
        ok, plan := PlanList(list, formats);
        config, streams := [], [];
        if ok {
          config, streams, priv := plan.configs, plan.streams, plan.priv;
        }
      }
    }
  }

  /** What configureStreams stores. */
  datatype Plan = Plan(configs: seq<Config>, streams: seq<CameraStream>, priv: map<AndroidStream, nat>)

  method PlanList(list: seq<AndroidStream>, formats: map<int, PixelFormat>) returns (ok: bool, plan: Plan)
    ensures ok <==> Acceptable(list, formats)
    ensures ok ==> Configured(list, formats, plan.configs, plan.streams, plan.priv)
  {
    plan := Plan([], [], map[]);
    var configs, jpeg;
    ok, configs, jpeg := DirectConfigs(list, formats);
    if ok {
      if jpeg.Some? {
        configs := AttachJpeg(configs, jpeg.value);
      }
      plan := PlanStreams(configs, jpeg, list, formats);
    }
  }

  /** From the configurations offered to the CameraStreams. */
  method PlanStreams(
      configs: seq<Config>, jpeg: Option<AndroidStream>, ghost list: seq<AndroidStream>,
      ghost formats: map<int, PixelFormat>)
    returns (plan: Plan)
    requires Acceptable(list, formats) && configs == Offered(list, formats) && jpeg == JpegStream(list)
    ensures Configured(list, formats, plan.configs, plan.streams, plan.priv)
  {
    OfferedServes(list, formats);
    var found, sorted, head, tail, at := SortConfigs(configs, jpeg);
    BagPermutes(sorted, configs);
    var streams, priv := EmitStreams(sorted);
    ExpectedSize(list);
    SameSize(RefsOf(streams), list, KindIn(list, formats));
    plan := Plan(sorted, streams, priv);
  }

  lemma SameSize(refs: seq<StreamRef>, list: seq<AndroidStream>, kind: Kind)
    requires multiset(refs) == Expected(list, kind) && |Blobs(list)| <= 1
    ensures |refs| == |DirectRefs(list)| + |Blobs(list)|
  {
    assert |multiset(refs)| == |refs| && |multiset(DirectRefs(list))| == |DirectRefs(list)|;
  }

  /** Each Android stream is referred to as often as it is requested: once, if the list has it once. */
  lemma {:induction false} RequestedOnce(list: seq<AndroidStream>, a: AndroidStream)
    ensures multiset(list)[a] == multiset(DirectRefs(list))[StreamRef(a, Direct)] + multiset(Blobs(list))[a]
  {
    if list != [] {
      var n := |list| - 1;
      RequestedOnce(list[..n], a);
      TakeNext(list, n);
      TakeAll(list);
      MultisetConcat(DirectRefs(list[..n]), [StreamRef(list[n], Direct)]);
      MultisetConcat(Blobs(list[..n]), [list[n]]);
      ConcatEmpty(DirectRefs(list[..n]));
      ConcatEmpty(Blobs(list[..n]));
    }
  }

  lemma {:induction false} OnlyDirect(list: seq<AndroidStream>, r: StreamRef)
    requires r in DirectRefs(list)
    ensures r.kind == Direct
  {
    if list[|list| - 1].format == BLOB || r != StreamRef(list[|list| - 1], Direct) {
      OnlyDirect(list[..|list| - 1], r);
    }
  }

  lemma {:induction false} RefIsStream(streams: seq<CameraStream>, i: nat)
    requires i < |streams|
    ensures RefsOf(streams)[i] == StreamRef(streams[i].stream, streams[i].kind)
  {
    if i < |streams| - 1 {
      RefIsStream(streams[..|streams| - 1], i);
    }
  }

  /** What is offered is what is configured. */
  lemma ConfiguredServes(
      list: seq<AndroidStream>, formats: map<int, PixelFormat>, configs: seq<Config>)
    requires AllUsable(list, formats) && InOrder(list, formats, configs)
    ensures multiset(configs) == multiset(Offered(list, formats)) && |configs| == |Offered(list, formats)|
    ensures Served(configs, formats)
  {
    OfferedServes(list, formats);
    SameCount(configs, Offered(list, formats));
    forall c | c in configs ensures ServedOne(c, formats) {
      assert c in multiset(configs);
    }
  }

  lemma SameCount(a: seq<Config>, b: seq<Config>)
    requires multiset(a) == multiset(b)
    ensures |a| == |b|
  {
    assert |multiset(a)| == |a| && |multiset(b)| == |b|;
  }

  /**
   * What a configured device has: one configuration for each Direct stream, and one more for a JPEG
   * stream that no other stream has the size of; each CameraStream's index names a configuration of
   * its own size, and of its own pixel format or, for an Internal one, NV12; a Mapped stream shares
   * its index with a Direct one; every reference is as expected, so at most one is not Direct.
   */
  lemma ConfiguredStreams(
      list: seq<AndroidStream>, formats: map<int, PixelFormat>, configs: seq<Config>,
      streams: seq<CameraStream>, priv: map<AndroidStream, nat>, i: nat)
    requires Acceptable(list, formats) && Configured(list, formats, configs, streams, priv) && i < |streams|
    ensures |configs| == |DirectRefs(list)| + (if Blobs(list) != [] && KindIn(list, formats) == Internal then 1 else 0)
    ensures var s := streams[i];
      && s.index < |configs|
      && configs[s.index].size.width == s.stream.width && configs[s.index].size.height == s.stream.height
      && (s.kind == Direct ==> OfFormat(configs[s.index], s.stream, formats))
      && (s.kind == Internal ==> configs[s.index].fmt == NV12)
      && (s.kind == Mapped ==> exists d :: d in streams && d.kind == Direct && d.index == s.index)
      && (s.kind != Direct ==> s.stream in Blobs(list) && s.kind == KindIn(list, formats))
      && streams[priv[s.stream]].stream == s.stream
  {
    OfferedServes(list, formats);
    ConfiguredServes(list, formats, configs);
    var s := streams[i];
    assert s in streams && Named(s, configs);
    var c := configs[s.index];
    assert c in configs && ServedOne(c, formats);
    if s.kind == Mapped {
      var d :| d in c.streams && d.kind == Direct;
      assert EmittedOf(streams, c.streams, s.index);
      assert CameraStream(d.kind, d.stream, s.index) in streams;
    }
    if s.kind != Direct {
      IndirectIsJpeg(list, formats, streams, i);
    }
  }

  lemma IndirectIsJpeg(
      list: seq<AndroidStream>, formats: map<int, PixelFormat>, streams: seq<CameraStream>, i: nat)
    requires AllUsable(list, formats) && i < |streams| && streams[i].kind != Direct
    requires multiset(RefsOf(streams)) == Expected(list, KindIn(list, formats))
    ensures streams[i].stream in Blobs(list) && streams[i].kind == KindIn(list, formats)
  {
    var ref := StreamRef(streams[i].stream, streams[i].kind);
    RefIsStream(streams, i);
    assert ref in multiset(RefsOf(streams));
    if ref in DirectRefs(list) {
      OnlyDirect(list, ref);
    }
  }
}
