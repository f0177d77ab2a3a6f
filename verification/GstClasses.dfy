/** The allocator and the pool as mutable objects. */
module GstClasses {
  import opened Seqs
  import opened GstAllocator
  import P = GstPool

  class LibcameraAllocator {
    var frames: seq<Frame>
    var pools: map<Stream, seq<nat>>
    var refs: int

    ghost function Abs(): Allocator
      reads this
    {
      Allocator(frames, pools, refs)
    }

    /** One FrameWrap for each (stream, plane count), all of them in the queue of their stream. */
    constructor (streams: set<Stream>, wraps: seq<(Stream, nat)>)
      requires forall w :: w in wraps ==> w.0 in streams
      ensures Inv(Abs()) && pools.Keys == streams && |frames| == |wraps|
      ensures forall i :: 0 <= i < |wraps| ==> frames[i] == Frame(wraps[i].0, wraps[i].1, 0, {})
    {
      var fs, ps := WrapFrames(streams, wraps);
      NewFramesInv(fs, ps, wraps);
      frames, pools, refs := fs, ps, 0;
    }

    /**
     * Take a frame of the stream and append its planes, (frame, plane), to a buffer; false if the
     * stream is not known or has no frame ready.
     */
    method PrepareBuffer(stream: Stream) returns (ok: bool, memories: seq<(nat, nat)>)
      requires Inv(Abs())
      modifies this
      ensures ok <==> stream in old(pools) && old(pools)[stream] != []
      ensures !ok ==> Abs() == old(Abs()) && memories == []
      ensures ok ==> CanPrepare(old(Abs()), stream) && Abs() == Prepare(old(Abs()), stream)
      ensures ok ==>
        var i := old(pools)[stream][0];
        && pools == old(pools)[stream := old(pools)[stream][1..]]
        && |memories| == old(frames)[i].planes && (forall p :: 0 <= p < |memories| ==> memories[p] == (i, p))
    {
      memories := [];
      if stream !in pools || pools[stream] == [] {
        return false, memories;
      }
      HeadIsFree(Abs(), stream);
      var i := pools[stream][0];
      pools := pools[stream := pools[stream][1..]];
      var frame, taken, count := AppendPlanes(frames[i], i);
      frames := frames[i := frame];
      memories := taken;
      refs := refs + count;
      ok := true;
    }

    /** The dispose function of a plane: count it in, and pool the frame when it is the last one. */
    method ReleaseMemory(i: nat, p: nat)
      requires CanRelease(Abs(), i, p)
      modifies this
      ensures Abs() == Release(old(Abs()), i, p)
    {
      frames := frames[i := frames[i].(outstanding := frames[i].outstanding - 1, out := frames[i].out - {p})];
      if frames[i].outstanding == 0 {
        pools := pools[frames[i].stream := pools[frames[i].stream] + [i]];
      }
      refs := refs - 1;
    }
  }

  /** One memory for each of n planes of frame i, in the order of the planes. */
  function Memories(i: nat, n: nat): (r: seq<(nat, nat)>)
    ensures |r| == n && forall p :: 0 <= p < n ==> r[p] == (i, p)
  {
    if n == 0 then [] else Memories(i, n - 1) + [(i, n - 1)]
  }

  /** acquirePlane for every plane of frame i, each appended to the buffer with one more reference. */
  method AppendPlanes(frame: Frame, i: nat) returns (f: Frame, memories: seq<(nat, nat)>, refs: nat)
    requires frame.outstanding == 0 && frame.out == {}
    ensures f == LeasedFrame(frame) && memories == Memories(i, frame.planes) && refs == frame.planes
  {
    var count: int, out: set<nat> := 0, {};
    memories, refs := [], 0;
    for p := 0 to frame.planes
      invariant count == p && out == AllPlanes(p)
      invariant memories == Memories(i, p) && refs == p
    {
      count, out, memories, refs := count + 1, out + {p}, memories + [(i, p)], refs + 1;
      assert AllPlanes(p + 1) == AllPlanes(p) + {p};
      assert Memories(i, p + 1) == Memories(i, p) + [(i, p)];
    }
    f := frame.(outstanding := count, out := out);
  }

  /** The frames of a stream, in order. */
  function FramesOf(frames: seq<Frame>, s: Stream): seq<nat> {
    if frames == [] then []
    else
      var n := |frames| - 1;
      FramesOf(frames[..n], s) + if frames[n].stream == s then [n] else []
  }

  predicate QueuesFull(frames: seq<Frame>, pools: map<Stream, seq<nat>>) {
    forall s :: s in pools ==> pools[s] == FramesOf(frames, s)
  }

  predicate AllNew(frames: seq<Frame>, wraps: seq<(Stream, nat)>) {
    |frames| <= |wraps| && forall k :: 0 <= k < |frames| ==> frames[k] == Frame(wraps[k].0, wraps[k].1, 0, {})
  }

  /** Every frame new, in the queue of its stream. */
  method WrapFrames(streams: set<Stream>, wraps: seq<(Stream, nat)>) returns (fs: seq<Frame>, ps: map<Stream, seq<nat>>)
    requires forall w :: w in wraps ==> w.0 in streams
    ensures ps.Keys == streams && |fs| == |wraps| && AllNew(fs, wraps) && QueuesFull(fs, ps)
  {
    fs, ps := [], map s | s in streams :: [];
    for i := 0 to |wraps|
      invariant |fs| == i && ps.Keys == streams && AllNew(fs, wraps) && QueuesFull(fs, ps)
    {
      assert wraps[i] in wraps;
      var f := Frame(wraps[i].0, wraps[i].1, 0, {});
      InitLast(fs, f);
      fs := fs + [f];
      ps := ps[f.stream := ps[f.stream] + [i]];
    }
  }

  lemma {:induction false} NewFramesFree(frames: seq<Frame>, wraps: seq<(Stream, nat)>, s: Stream)
    requires AllNew(frames, wraps)
    ensures multiset(FramesOf(frames, s)) == FreeBag(frames, s) && PlanesOut(frames) == 0
  {
    if frames != [] {
      var n := |frames| - 1;
      NewFramesFree(frames[..n], wraps, s);
      MultisetConcat(FramesOf(frames[..n], s), [n]);
      PlusNothing(FreeBag(frames[..n], s));
      ConcatEmpty(FramesOf(frames[..n], s));
    }
  }

  /** Frames all new, each in the queue of its stream, are a good start. */
  lemma NewFramesInv(frames: seq<Frame>, pools: map<Stream, seq<nat>>, wraps: seq<(Stream, nat)>)
    requires AllNew(frames, wraps) && |frames| == |wraps| && QueuesFull(frames, pools)
    requires forall w :: w in wraps ==> w.0 in pools
    ensures Inv(Allocator(frames, pools, 0))
  {
    forall i | 0 <= i < |frames| ensures Counts(frames[i]) && frames[i].stream in pools {
      assert wraps[i] in wraps;
    }
    forall s | s in pools ensures multiset(pools[s]) == FreeBag(frames, s) {
      NewFramesFree(frames, wraps, s);
    }
    NewFramesFree(frames, wraps, 0);
  }

  /** One stream's buffer pool. */
  class LibcameraPool {
    const allocator: LibcameraAllocator
    const stream: Stream
    var queue: seq<nat>
    ghost var popped: multiset<nat>
    ghost var leased: seq<P.Lease>
    ghost var resetting: multiset<nat>

    ghost function Abs(): P.Pool
      reads this, allocator
    {
      P.Pool(allocator.Abs(), stream, queue, popped, leased, resetting)
    }

    /** A GstBuffer for each frame in the stream's queue. */
    constructor (allocator: LibcameraAllocator, stream: Stream)
      requires stream in allocator.pools
      ensures Abs() == P.Pool(allocator.Abs(), stream, queue, multiset{}, [], multiset{})
      ensures forall k :: 0 <= k < |queue| ==> queue[k] == k
      ensures this.allocator == allocator && this.stream == stream
      ensures |queue| == |allocator.pools[stream]|
    {
      this.allocator, this.stream := allocator, stream;
      var q: seq<nat> := [];
      for i := 0 to |allocator.pools[stream]|
        invariant |q| == i && forall k :: 0 <= k < i ==> q[k] == k
      {
        q := q + [i];
      }
      queue, popped, leased, resetting := q, multiset{}, [], multiset{};
    }

    /** Pop a buffer from the queue, if there is one; other threads may act before it is used. */
    method PopBuffer() returns (found: bool, buffer: nat)
      modifies this
      ensures found <==> old(queue) != []
      ensures found ==> buffer == old(queue)[0] && Abs() == P.Step(old(Abs()), P.EPop)
      ensures !found ==> Abs() == old(Abs())
    {
      if queue == [] {
        return false, 0;
      }
      found, buffer := true, queue[0];
      queue, popped := queue[1..], popped + multiset{buffer};
    }

    /** Prepare the buffer, or put it back. */
    method UseBuffer(buffer: nat) returns (ok: bool)
      requires Inv(allocator.Abs()) && buffer in popped
      modifies this, allocator
      ensures Abs() == P.Step(old(Abs()), P.EUse(buffer))
      ensures ok <==> CanPrepare(old(allocator.Abs()), stream)
    {
      ghost var before := allocator.Abs();
      var memories;
      ok, memories := allocator.PrepareBuffer(stream);
      popped := popped - multiset{buffer};
      if ok {
        leased := leased + [P.Lease(buffer, before.pools[stream][0])];
      } else {
        queue := queue + [buffer];
      }
    }

    /** acquire_buffer with nothing in between. */
    method AcquireBuffer() returns (ok: bool, buffer: nat)
      requires Inv(allocator.Abs())
      modifies this, allocator
      ensures Abs() == P.Acquire(old(Abs()))
      ensures ok <==> P.CanAcquire(old(Abs()))
      ensures ok ==> buffer == old(queue)[0]
    {
      ok, buffer := PopBuffer();
      if ok {
        ok := UseBuffer(buffer);
      }
    }

    /** Queue the buffer; the result says whether waiting elements are notified. */
    method ReleaseBuffer(buffer: nat) returns (notify: bool)
      requires buffer in resetting
      modifies this
      ensures Abs() == P.Step(old(Abs()), P.EPush(buffer))
      ensures notify <==> old(queue) == []
    {
      notify := |queue| == 0;
      queue := queue + [buffer];
      resetting := resetting - multiset{buffer};
    }
  }
}
