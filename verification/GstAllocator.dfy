/** The pooling allocator of the GStreamer element: gstlibcameraallocator.cpp. */
module GstAllocator {
  import opened Seqs

  type Stream = nat

  /**
   * A FrameWrap: the planes of a frame buffer, how many of them are out, and (what the count stands
   * for) which.
   */
  datatype Frame = Frame(stream: Stream, planes: nat, outstanding: int, out: set<nat>)

  /** Frames are named by their index; `pools` are the queues of frames ready for use. */
  datatype Allocator = Allocator(frames: seq<Frame>, pools: map<Stream, seq<nat>>, refs: int)

  // ----- what the queues and counters should be -----

  /** The frames of stream s that are all in. */
  function FreeBag(frames: seq<Frame>, s: Stream): multiset<nat> {
    if frames == [] then multiset{}
    else
      var n := |frames| - 1;
      FreeBag(frames[..n], s) + Single(frames[n].stream == s && frames[n].outstanding == 0, n)
  }

  /** The frames of stream s that have planes out. */
  function BusyBag(frames: seq<Frame>, s: Stream): multiset<nat> {
    if frames == [] then multiset{}
    else
      var n := |frames| - 1;
      BusyBag(frames[..n], s) + Single(frames[n].stream == s && frames[n].outstanding != 0, n)
  }

  function Single(b: bool, x: nat): multiset<nat> {
    if b then multiset{x} else multiset{}
  }

  /** The number of frames allocated for stream s. */
  function Allocated(frames: seq<Frame>, s: Stream): nat {
    if frames == [] then 0
    else Allocated(frames[..|frames| - 1], s) + (if frames[|frames| - 1].stream == s then 1 else 0)
  }

  function PlanesOut(frames: seq<Frame>): int {
    if frames == [] then 0 else PlanesOut(frames[..|frames| - 1]) + frames[|frames| - 1].outstanding
  }

  /** The count is the number of planes that are out. */
  predicate Counts(f: Frame) {
    f.outstanding == |f.out| && forall p :: p in f.out ==> p < f.planes
  }

  predicate Inv(a: Allocator) {
    && (forall i :: 0 <= i < |a.frames| ==> Counts(a.frames[i]) && a.frames[i].stream in a.pools)
    && (forall s :: s in a.pools ==> multiset(a.pools[s]) == FreeBag(a.frames, s))
    && a.refs == PlanesOut(a.frames)
  }

  // ----- the operations -----

  function AllPlanes(n: nat): (s: set<nat>)
    ensures |s| == n && forall p: nat :: p in s <==> p < n
  {
    if n == 0 then {} else AllPlanes(n - 1) + {n - 1}
  }

  /** A frame whose planes have all been appended to a buffer. */
  function LeasedFrame(f: Frame): Frame {
    f.(outstanding := f.outstanding + f.planes, out := AllPlanes(f.planes))
  }

  predicate CanPrepare(a: Allocator, s: Stream) {
    s in a.pools && a.pools[s] != [] && a.pools[s][0] < |a.frames|
  }

  function Prepare(a: Allocator, s: Stream): Allocator
    requires CanPrepare(a, s)
  {
    var i := a.pools[s][0];
    Allocator(a.frames[i := LeasedFrame(a.frames[i])], a.pools[s := a.pools[s][1..]],
              a.refs + a.frames[i].planes)
  }

  predicate CanRelease(a: Allocator, i: nat, p: nat) {
    i < |a.frames| && p in a.frames[i].out && a.frames[i].stream in a.pools
  }

  function ReturnedFrame(f: Frame, p: nat): Frame {
    f.(outstanding := f.outstanding - 1, out := f.out - {p})
  }

  /** A plane comes back; with the last one the frame joins its queue again. */
  function Release(a: Allocator, i: nat, p: nat): Allocator
    requires CanRelease(a, i, p)
  {
    var f := ReturnedFrame(a.frames[i], p);
    Allocator(a.frames[i := f],
              if f.outstanding == 0 then a.pools[f.stream := a.pools[f.stream] + [i]] else a.pools,
              a.refs - 1)
  }

  // ----- one frame changes -----

  /** A frame is in its queue once if all its planes are in, and in no queue otherwise. */
  lemma {:induction false} InFreeBag(frames: seq<Frame>, s: Stream, i: nat)
    ensures FreeBag(frames, s)[i] ==
      if i < |frames| && frames[i].stream == s && frames[i].outstanding == 0 then 1 else 0
    ensures BusyBag(frames, s)[i] ==
      if i < |frames| && frames[i].stream == s && frames[i].outstanding != 0 then 1 else 0
  {
    if frames != [] {
      InFreeBag(frames[..|frames| - 1], s, i);
    }
  }

  lemma {:induction false} SumUpdate(frames: seq<Frame>, i: nat, f: Frame, s: Stream)
    requires i < |frames| && f.stream == frames[i].stream
    ensures PlanesOut(frames[i := f]) == PlanesOut(frames) - frames[i].outstanding + f.outstanding
    ensures Allocated(frames[i := f], s) == Allocated(frames, s)
  {
    var n := |frames| - 1;
    if i == n {
      assert frames[i := f][..n] == frames[..n];
    } else {
      assert frames[i := f][..n] == frames[..n][i := f];
      SumUpdate(frames[..n], i, f, s);
    }
  }

  /** Changing one frame changes nothing for the others, ... */
  lemma CountUpdate(frames: seq<Frame>, i: nat, f: Frame, s: Stream, k: nat)
    requires i < |frames| && f.stream == frames[i].stream
    ensures FreeBag(frames[i := f], s)[k] + Single(frames[i].stream == s && frames[i].outstanding == 0, i)[k]
         == FreeBag(frames, s)[k] + Single(f.stream == s && f.outstanding == 0, i)[k]
    ensures BusyBag(frames[i := f], s)[k] + Single(frames[i].stream == s && frames[i].outstanding != 0, i)[k]
         == BusyBag(frames, s)[k] + Single(f.stream == s && f.outstanding != 0, i)[k]
  {
    InFreeBag(frames, s, k);
    InFreeBag(frames[i := f], s, k);
  }

  lemma SameSums(a: multiset<nat>, b: multiset<nat>, c: multiset<nat>, d: multiset<nat>)
    requires forall k: nat :: a[k] + b[k] == c[k] + d[k]
    ensures a + b == c + d
  {
    forall k: nat ensures (a + b)[k] == (c + d)[k] {
    }
  }

  /** ... so the bags change by that frame. */
  lemma BagsUpdate(frames: seq<Frame>, i: nat, f: Frame, s: Stream)
    requires i < |frames| && f.stream == frames[i].stream
    ensures FreeBag(frames[i := f], s) + Single(frames[i].stream == s && frames[i].outstanding == 0, i)
         == FreeBag(frames, s) + Single(f.stream == s && f.outstanding == 0, i)
    ensures BusyBag(frames[i := f], s) + Single(frames[i].stream == s && frames[i].outstanding != 0, i)
         == BusyBag(frames, s) + Single(f.stream == s && f.outstanding != 0, i)
  {
    forall k: nat {
      CountUpdate(frames, i, f, s, k);
    }
    SameSums(FreeBag(frames[i := f], s), Single(frames[i].stream == s && frames[i].outstanding == 0, i),
             FreeBag(frames, s), Single(f.stream == s && f.outstanding == 0, i));
    SameSums(BusyBag(frames[i := f], s), Single(frames[i].stream == s && frames[i].outstanding != 0, i),
             BusyBag(frames, s), Single(f.stream == s && f.outstanding != 0, i));
  }

  /** A frame goes out: it leaves the free frames of its stream for the busy ones. */
  lemma GoesOut(frames: seq<Frame>, i: nat, f: Frame, s: Stream)
    requires i < |frames| && f.stream == frames[i].stream && frames[i].outstanding == 0 != f.outstanding
    ensures FreeBag(frames, s) == FreeBag(frames[i := f], s) + Single(f.stream == s, i)
    ensures BusyBag(frames[i := f], s) == BusyBag(frames, s) + Single(f.stream == s, i)
  {
    BagsUpdate(frames, i, f, s);
  }

  /** A frame's last plane comes back. */
  lemma ComesBack(frames: seq<Frame>, i: nat, f: Frame, s: Stream)
    requires i < |frames| && f.stream == frames[i].stream && frames[i].outstanding != 0 == f.outstanding
    ensures FreeBag(frames[i := f], s) == FreeBag(frames, s) + Single(f.stream == s, i)
    ensures BusyBag(frames, s) == BusyBag(frames[i := f], s) + Single(f.stream == s, i)
  {
    BagsUpdate(frames, i, f, s);
  }

  /** Any other plane comes back: neither the free frames nor the busy ones change. */
  lemma StaysOut(frames: seq<Frame>, i: nat, f: Frame, s: Stream)
    requires i < |frames| && f.stream == frames[i].stream && frames[i].outstanding != 0 && f.outstanding != 0
    ensures FreeBag(frames[i := f], s) == FreeBag(frames, s)
    ensures BusyBag(frames[i := f], s) == BusyBag(frames, s)
  {
    BagsUpdate(frames, i, f, s);
    PlusNothing(FreeBag(frames, s));
    PlusNothing(FreeBag(frames[i := f], s));
    PlusNothing(BusyBag(frames, s));
    PlusNothing(BusyBag(frames[i := f], s));
    if f.stream == s {
      Cancel(BusyBag(frames[i := f], s), BusyBag(frames, s), i);
    }
  }

  lemma {:induction false} FreeAndBusy(frames: seq<Frame>, s: Stream)
    ensures |FreeBag(frames, s)| + |BusyBag(frames, s)| == Allocated(frames, s)
  {
    if frames != [] {
      FreeAndBusy(frames[..|frames| - 1], s);
    }
  }

  // ----- the invariant -----

  lemma HeadIsFree(a: Allocator, s: Stream)
    requires Inv(a) && s in a.pools && a.pools[s] != []
    ensures CanPrepare(a, s)
    ensures var f := a.frames[a.pools[s][0]]; f.stream == s && f.outstanding == 0 && f.out == {}
  {
    var i := a.pools[s][0];
    assert i in multiset(a.pools[s]);
    InFreeBag(a.frames, s, i);
    assert Counts(a.frames[i]);
  }

  lemma PoolTail(pool: seq<nat>)
    requires pool != []
    ensures multiset(pool[1..]) + multiset{pool[0]} == multiset(pool)
  {
    assert pool == [pool[0]] + pool[1..];
  }

  /** The queues after a frame is taken, one stream at a time. */
  lemma PreparePools(a: Allocator, s: Stream, t: Stream)
    requires Inv(a) && s in a.pools && a.pools[s] != [] && t in a.pools
    requires CanPrepare(a, s) && a.frames[a.pools[s][0]].planes > 0
    ensures multiset(Prepare(a, s).pools[t]) == FreeBag(Prepare(a, s).frames, t)
  {
    HeadIsFree(a, s);
    var i := a.pools[s][0];
    GoesOut(a.frames, i, LeasedFrame(a.frames[i]), t);
    QueuesAfter(a.pools, s, t, FreeBag(a.frames, t), FreeBag(a.frames[i := LeasedFrame(a.frames[i])], t));
  }

  lemma QueuesAfter(
      pools: map<Stream, seq<nat>>, s: Stream, t: Stream, free: multiset<nat>, free': multiset<nat>)
    requires s in pools && t in pools && pools[s] != []
    requires multiset(pools[t]) == free == free' + Single(s == t, pools[s][0])
    ensures multiset(pools[s := pools[s][1..]][t]) == free'
  {
    if s == t {
      PoolTail(pools[s]);
      Cancel(multiset(pools[s][1..]), free', pools[s][0]);
    } else {
      PlusNothing(free');
    }
  }

  /**
   * Taking a frame keeps the invariant exactly when it has a plane: a frame without planes leaves
   * its queue with no plane out that could bring it back.
   */
  lemma PrepareKeeps(a: Allocator, s: Stream)
    requires Inv(a) && s in a.pools && a.pools[s] != []
    ensures CanPrepare(a, s)
    ensures Inv(Prepare(a, s)) <==> a.frames[a.pools[s][0]].planes > 0
  {
    HeadIsFree(a, s);
    var i, b := a.pools[s][0], Prepare(a, s);
    SumUpdate(a.frames, i, LeasedFrame(a.frames[i]), s);
    if a.frames[i].planes > 0 {
      forall t | t in b.pools ensures multiset(b.pools[t]) == FreeBag(b.frames, t) {
        PreparePools(a, s, t);
      }
    } else {
      NoPlanesIsLost(a, s);
    }
  }

  lemma NoPlanesIsLost(a: Allocator, s: Stream)
    requires Inv(a) && s in a.pools && a.pools[s] != []
    requires CanPrepare(a, s) && a.frames[a.pools[s][0]].planes == 0
    ensures multiset(Prepare(a, s).pools[s]) != FreeBag(Prepare(a, s).frames, s)
  {
    HeadIsFree(a, s);
    var i := a.pools[s][0];
    InFreeBag(a.frames, s, i);
    InFreeBag(Prepare(a, s).frames, s, i);
    PoolTail(a.pools[s]);
    assert multiset(a.pools[s])[i] == 1;
  }

  lemma ReleasePools(a: Allocator, i: nat, p: nat, t: Stream)
    requires Inv(a) && CanRelease(a, i, p) && t in a.pools
    ensures multiset(Release(a, i, p).pools[t]) == FreeBag(Release(a, i, p).frames, t)
  {
    var f := ReturnedFrame(a.frames[i], p);
    assert Counts(a.frames[i]) && a.frames[i].outstanding > 0;
    if f.outstanding == 0 {
      ComesBack(a.frames, i, f, t);
      MultisetConcat(a.pools[t], [i]);
    } else {
      StaysOut(a.frames, i, f, t);
    }
  }

  /** Returning a plane keeps the invariant. */
  lemma ReleaseKeeps(a: Allocator, i: nat, p: nat)
    requires Inv(a) && CanRelease(a, i, p)
    ensures Inv(Release(a, i, p))
  {
    var b, f := Release(a, i, p), ReturnedFrame(a.frames[i], p);
    assert Counts(a.frames[i]);
    assert Counts(f);
    SumUpdate(a.frames, i, f, f.stream);
    forall t | t in b.pools ensures multiset(b.pools[t]) == FreeBag(b.frames, t) {
      ReleasePools(a, i, p, t);
    }
  }

  // ----- runs -----

  datatype Event = EPrepare(s: Stream) | ERelease(i: nat, p: nat)

  predicate Enabled(a: Allocator, e: Event) {
    match e
    case EPrepare(s) => CanPrepare(a, s) && a.frames[a.pools[s][0]].planes > 0
    case ERelease(i, p) => CanRelease(a, i, p)
  }

  function Step(a: Allocator, e: Event): Allocator
    requires Enabled(a, e)
  {
    match e
    case EPrepare(s) => Prepare(a, s)
    case ERelease(i, p) => Release(a, i, p)
  }

  predicate Runs(a: Allocator, es: seq<Event>)
    decreases es
  {
    es == [] || (Enabled(a, es[0]) && Runs(Step(a, es[0]), es[1..]))
  }

  function Final(a: Allocator, es: seq<Event>): Allocator
    requires Runs(a, es)
    decreases es
  {
    if es == [] then a else Final(Step(a, es[0]), es[1..])
  }

  lemma {:induction false} RunKeeps(a: Allocator, es: seq<Event>, s: Stream)
    requires Inv(a) && Runs(a, es)
    ensures Inv(Final(a, es)) && Final(a, es).pools.Keys == a.pools.Keys
    ensures Allocated(Final(a, es).frames, s) == Allocated(a.frames, s)
    decreases es
  {
    if es != [] {
      StepKeeps(a, es[0]);
      StepAllocated(a, es[0], s);
      RunKeeps(Step(a, es[0]), es[1..], s);
    }
  }

  lemma StepKeeps(a: Allocator, e: Event)
    requires Inv(a) && Enabled(a, e)
    ensures Inv(Step(a, e)) && Step(a, e).pools.Keys == a.pools.Keys
  {
    match e
    case EPrepare(t) => PrepareKeeps(a, t);
    case ERelease(i, p) => ReleaseKeeps(a, i, p);
  }

  lemma StepAllocated(a: Allocator, e: Event, s: Stream)
    requires Enabled(a, e)
    ensures Allocated(Step(a, e).frames, s) == Allocated(a.frames, s)
  {
    match e
    case EPrepare(t) => SumUpdate(a.frames, a.pools[t][0], LeasedFrame(a.frames[a.pools[t][0]]), s);
    case ERelease(i, p) => SumUpdate(a.frames, i, ReturnedFrame(a.frames[i], p), s);
  }

  /**
   * The pool after any interleaving of buffers prepared and planes returned: frame i is in its
   * stream's queue, once, exactly when none of its planes is out; the count is the number of planes
   * out; pooled and leased frames add up to those allocated; and the extra references to the
   * allocator are as many as the planes out.
   */
  lemma PoolHolds(a: Allocator, es: seq<Event>, i: nat, s: Stream)
    requires Inv(a) && Runs(a, es) && i < |Final(a, es).frames| && s in a.pools
    ensures var b := Final(a, es);
      && b.frames[i].outstanding == |b.frames[i].out|
      && s in b.pools
      && multiset(b.pools[s])[i] == (if b.frames[i].stream == s && b.frames[i].out == {} then 1 else 0)
      && |b.pools[s]| + |BusyBag(b.frames, s)| == Allocated(a.frames, s)
      && b.refs == PlanesOut(b.frames)
  {
    RunKeeps(a, es, s);
    var b := Final(a, es);
    assert Counts(b.frames[i]);
    InFreeBag(b.frames, s, i);
    FreeAndBusy(b.frames, s);
    assert |multiset(b.pools[s])| == |b.pools[s]|;
  }
}
