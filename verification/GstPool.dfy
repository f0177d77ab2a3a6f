/** The buffer pool of one stream, over the allocator it shares with the others: gstlibcamerapool.cpp. */
module GstPool {
  import opened Seqs
  import opened GstAllocator

  /** A GstBuffer handed out, and the frame whose planes were appended to it. */
  datatype Lease = Lease(buffer: nat, frame: nat)

  /**
   * `popped` are the buffers that an acquire has popped and not yet prepared, `resetting` those
   * between reset_buffer and release_buffer.
   */
  datatype Pool = Pool(
    alloc: Allocator,
    stream: Stream,
    queued: seq<nat>,
    popped: multiset<nat>,
    leased: seq<Lease>,
    resetting: multiset<nat>)

  function FramesOf(leased: seq<Lease>): multiset<nat> {
    if leased == [] then multiset{}
    else FramesOf(leased[..|leased| - 1]) + multiset{leased[|leased| - 1].frame}
  }

  function BuffersOf(leased: seq<Lease>): multiset<nat> {
    if leased == [] then multiset{}
    else BuffersOf(leased[..|leased| - 1]) + multiset{leased[|leased| - 1].buffer}
  }

  lemma LeasePush(leased: seq<Lease>, l: Lease)
    ensures FramesOf(leased + [l]) == FramesOf(leased) + multiset{l.frame}
    ensures BuffersOf(leased + [l]) == BuffersOf(leased) + multiset{l.buffer}
  {
    InitLast(leased, l);
  }

  lemma {:induction false} LeaseConcat(a: seq<Lease>, b: seq<Lease>)
    ensures FramesOf(a + b) == FramesOf(a) + FramesOf(b)
    ensures BuffersOf(a + b) == BuffersOf(a) + BuffersOf(b)
  {
    if b == [] {
      ConcatEmpty(a);
    } else {
      var n := |b| - 1;
      TakeNext(b, n);
      TakeAll(b);
      Assoc(a, b[..n], [b[n]]);
      LeasePush(a + b[..n], b[n]);
      LeaseConcat(a, b[..n]);
      PlusAssoc(FramesOf(a), FramesOf(b[..n]), multiset{b[n].frame});
      PlusAssoc(BuffersOf(a), BuffersOf(b[..n]), multiset{b[n].buffer});
    }
  }

  lemma {:induction false} LeaseWithout(leased: seq<Lease>, k: nat)
    requires k < |leased|
    ensures FramesOf(leased) == FramesOf(Without(leased, k)) + multiset{leased[k].frame}
    ensures BuffersOf(leased) == BuffersOf(Without(leased, k)) + multiset{leased[k].buffer}
  {
    var a, x, b := leased[..k], leased[k], leased[k + 1..];
    assert leased == a + [x] + b;
    LeaseConcat(a + [x], b);
    LeasePush(a, x);
    LeaseConcat(a, b);
  }

  lemma {:induction false} LeaseCount(leased: seq<Lease>)
    ensures |FramesOf(leased)| == |leased|
  {
    if leased != [] {
      LeaseCount(leased[..|leased| - 1]);
    }
  }

  // ----- acquiring -----

  /** The first half of acquire_buffer takes a GstBuffer from the queue; it fails when there is none. */
  function Pop(s: Pool): Pool
    requires s.queued != []
  {
    s.(queued := s.queued[1..], popped := s.popped + multiset{s.queued[0]})
  }

  /** The second half finds a frame for it, or puts it at the back of the queue and fails. */
  function Use(s: Pool, b: nat): Pool
    requires b in s.popped
  {
    var rest := s.popped - multiset{b};
    if CanPrepare(s.alloc, s.stream) then
      s.(alloc := Prepare(s.alloc, s.stream), popped := rest,
         leased := s.leased + [Lease(b, s.alloc.pools[s.stream][0])])
    else s.(queued := s.queued + [b], popped := rest)
  }

  /** Both halves, with nothing in between. */
  predicate CanAcquire(s: Pool) {
    s.queued != [] && CanPrepare(s.alloc, s.stream)
  }

  function Acquire(s: Pool): Pool {
    if s.queued == [] then s else Use(Pop(s), s.queued[0])
  }

  /** A failed acquire leaves the same buffers queued. */
  lemma FailedAcquire(s: Pool)
    requires !CanAcquire(s)
    ensures Acquire(s) == s.(queued := Acquire(s).queued) && multiset(Acquire(s).queued) == multiset(s.queued)
  {
    if s.queued != [] {
      PoolTail(s.queued);
      MultisetConcat(s.queued[1..], [s.queued[0]]);
      assert s.popped + multiset{s.queued[0]} - multiset{s.queued[0]} == s.popped;
    }
  }

  // ----- the steps -----

  datatype Event =
    | EPop                         // acquire_buffer finds a GstBuffer
    | EUse(buffer: nat)            // and goes on to prepare it
    | EReset(k: nat)               // reset_buffer drops the memories of a leased buffer
    | EPush(buffer: nat)           // release_buffer queues it again
    | EPlane(i: nat, p: nat)       // a plane is disposed of: none of a leased buffer's
    | EOther(t: Stream)            // another stream's pool takes a frame

  predicate Enabled(s: Pool, e: Event) {
    match e
    case EPop => s.queued != []
    case EUse(b) => b in s.popped
    case EReset(k) => k < |s.leased|
    case EPush(b) => b in s.resetting
    case EPlane(i, p) => CanRelease(s.alloc, i, p) && i !in FramesOf(s.leased)
    case EOther(t) => t != s.stream && CanPrepare(s.alloc, t)
  }

  function Step(s: Pool, e: Event): Pool
    requires Enabled(s, e)
  {
    match e
    case EPop => Pop(s)
    case EUse(b) => Use(s, b)
    case EReset(k) =>
      s.(leased := Without(s.leased, k), resetting := s.resetting + multiset{s.leased[k].buffer})
    case EPush(b) => s.(queued := s.queued + [b], resetting := s.resetting - multiset{b})
    case EPlane(i, p) => s.(alloc := Release(s.alloc, i, p))
    case EOther(t) => s.(alloc := Prepare(s.alloc, t))
  }

  predicate HavePlanes(frames: seq<Frame>) {
    forall i :: 0 <= i < |frames| ==> frames[i].planes > 0
  }

  /** All the GstBuffers of the pool, wherever they are. */
  function Buffers(s: Pool): multiset<nat> {
    multiset(s.queued) + s.popped + BuffersOf(s.leased) + s.resetting
  }

  predicate PoolInv(s: Pool, buffers: multiset<nat>) {
    && Inv(s.alloc) && HavePlanes(s.alloc.frames) && s.stream in s.alloc.pools
    && FramesOf(s.leased) <= BusyBag(s.alloc.frames, s.stream)
    && Buffers(s) == buffers && |buffers| == Allocated(s.alloc.frames, s.stream)
  }

  lemma PrepareBusy(a: Allocator, t: Stream, s: Stream)
    requires Inv(a) && HavePlanes(a.frames) && CanPrepare(a, t)
    ensures Inv(Prepare(a, t)) && HavePlanes(Prepare(a, t).frames)
    ensures Allocated(Prepare(a, t).frames, s) == Allocated(a.frames, s)
    ensures BusyBag(Prepare(a, t).frames, s) == BusyBag(a.frames, s) + Single(t == s, a.pools[t][0])
  {
    var i := a.pools[t][0];
    HeadIsFree(a, t);
    PrepareKeeps(a, t);
    GoesOut(a.frames, i, LeasedFrame(a.frames[i]), s);
    SumUpdate(a.frames, i, LeasedFrame(a.frames[i]), s);
  }

  lemma PlanesKept(frames: seq<Frame>, i: nat, f: Frame)
    requires HavePlanes(frames) && i < |frames| && f.planes == frames[i].planes
    ensures HavePlanes(frames[i := f])
  {
  }

  lemma FrameReturned(frames: seq<Frame>, i: nat, f: Frame, s: Stream)
    requires i < |frames| && f.stream == frames[i].stream && frames[i].outstanding != 0
    ensures var before, after := BusyBag(frames, s), BusyBag(frames[i := f], s);
      before == after || before == after + multiset{i}
  {
    if f.outstanding == 0 {
      ComesBack(frames, i, f, s);
      PlusNothing(BusyBag(frames[i := f], s));
    } else {
      StaysOut(frames, i, f, s);
    }
  }

  lemma ReleaseBusy(a: Allocator, i: nat, p: nat, s: Stream)
    requires Inv(a) && HavePlanes(a.frames) && CanRelease(a, i, p)
    ensures Inv(Release(a, i, p)) && HavePlanes(Release(a, i, p).frames)
    ensures Allocated(Release(a, i, p).frames, s) == Allocated(a.frames, s)
    ensures var before, after := BusyBag(a.frames, s), BusyBag(Release(a, i, p).frames, s);
      before == after || before == after + multiset{i}
  {
    var f := ReturnedFrame(a.frames[i], p);
    assert Counts(a.frames[i]);
    ReleaseKeeps(a, i, p);
    PlanesKept(a.frames, i, f);
    SumUpdate(a.frames, i, f, s);
    FrameReturned(a.frames, i, f, s);
  }

  lemma StillCovered(l: multiset<nat>, busy: multiset<nat>, busy': multiset<nat>, i: nat)
    requires l <= busy && i !in l && (busy == busy' || busy == busy' + multiset{i})
    ensures l <= busy'
  {
    forall x: nat ensures l[x] <= busy'[x] {
      if x != i {
        assert (busy' + multiset{i})[x] == busy'[x];
      }
    }
  }

  lemma AddBoth(l: multiset<nat>, busy: multiset<nat>, i: nat)
    requires l <= busy
    ensures l + multiset{i} <= busy + multiset{i}
  {
  }

  /** Four parts, and one element in any of them. */
  lemma Anywhere(
      a: multiset<nat>, b: multiset<nat>, c: multiset<nat>, d: multiset<nat>, x: multiset<nat>)
    ensures (a + x) + b + c + d == a + (b + x) + c + d == a + b + (c + x) + d == a + b + c + (d + x)
  {
  }

  lemma PopKeeps(s: Pool, buffers: multiset<nat>)
    requires PoolInv(s, buffers) && s.queued != []
    ensures PoolInv(Pop(s), buffers)
  {
    PoolTail(s.queued);
    Anywhere(multiset(s.queued[1..]), s.popped, BuffersOf(s.leased), s.resetting, multiset{s.queued[0]});
  }

  lemma UseKeeps(s: Pool, b: nat, buffers: multiset<nat>)
    requires PoolInv(s, buffers) && b in s.popped
    ensures PoolInv(Use(s, b), buffers)
  {
    var rest := s.popped - multiset{b};
    assert s.popped == rest + multiset{b};
    Anywhere(multiset(s.queued), rest, BuffersOf(s.leased), s.resetting, multiset{b});
    if CanPrepare(s.alloc, s.stream) {
      LeaseNext(s, b);
    } else {
      MultisetConcat(s.queued, [b]);
    }
  }

  /** The frame that is prepared is busy from then on. */
  lemma LeaseNext(s: Pool, b: nat)
    requires Inv(s.alloc) && HavePlanes(s.alloc.frames) && CanPrepare(s.alloc, s.stream)
    requires FramesOf(s.leased) <= BusyBag(s.alloc.frames, s.stream)
    ensures var a, leased := Prepare(s.alloc, s.stream), s.leased + [Lease(b, s.alloc.pools[s.stream][0])];
      && Inv(a) && HavePlanes(a.frames) && s.stream in a.pools
      && Allocated(a.frames, s.stream) == Allocated(s.alloc.frames, s.stream)
      && FramesOf(leased) <= BusyBag(a.frames, s.stream)
      && BuffersOf(leased) == BuffersOf(s.leased) + multiset{b}
  {
    var i := s.alloc.pools[s.stream][0];
    PrepareBusy(s.alloc, s.stream, s.stream);
    LeasePush(s.leased, Lease(b, i));
    AddBoth(FramesOf(s.leased), BusyBag(s.alloc.frames, s.stream), i);
  }

  lemma ResetKeeps(s: Pool, k: nat, buffers: multiset<nat>)
    requires PoolInv(s, buffers) && k < |s.leased|
    ensures PoolInv(Step(s, EReset(k)), buffers)
  {
    var rest := Without(s.leased, k);
    LeaseWithout(s.leased, k);
    Anywhere(multiset(s.queued), s.popped, BuffersOf(rest), s.resetting, multiset{s.leased[k].buffer});
    assert FramesOf(rest) <= FramesOf(s.leased);
  }

  lemma PushKeeps(s: Pool, b: nat, buffers: multiset<nat>)
    requires PoolInv(s, buffers) && b in s.resetting
    ensures PoolInv(Step(s, EPush(b)), buffers)
  {
    var rest := s.resetting - multiset{b};
    MultisetConcat(s.queued, [b]);
    assert s.resetting == rest + multiset{b};
    Anywhere(multiset(s.queued), s.popped, BuffersOf(s.leased), rest, multiset{b});
  }

  lemma StepKeepsPool(s: Pool, e: Event, buffers: multiset<nat>)
    requires PoolInv(s, buffers) && Enabled(s, e)
    ensures PoolInv(Step(s, e), buffers)
  {
    match e {
      case EPop => PopKeeps(s, buffers);
      case EUse(b) => UseKeeps(s, b, buffers);
      case EReset(k) => ResetKeeps(s, k, buffers);
      case EPush(b) => PushKeeps(s, b, buffers);
      case EPlane(i, p) =>
        ReleaseBusy(s.alloc, i, p, s.stream);
        StillCovered(FramesOf(s.leased), BusyBag(s.alloc.frames, s.stream),
                     BusyBag(Release(s.alloc, i, p).frames, s.stream), i);
      case EOther(t) => PrepareBusy(s.alloc, t, s.stream);
    }
  }

  predicate Runs(s: Pool, es: seq<Event>)
    decreases es
  {
    es == [] || (Enabled(s, es[0]) && Runs(Step(s, es[0]), es[1..]))
  }

  function Final(s: Pool, es: seq<Event>): Pool
    requires Runs(s, es)
    decreases es
  {
    if es == [] then s else Final(Step(s, es[0]), es[1..])
  }

  lemma {:induction false} RunKeepsPool(s: Pool, es: seq<Event>, buffers: multiset<nat>)
    requires PoolInv(s, buffers) && Runs(s, es)
    ensures PoolInv(Final(s, es), buffers)
    decreases es
  {
    if es != [] {
      StepKeepsPool(s, es[0], buffers);
      RunKeepsPool(Step(s, es[0]), es[1..], buffers);
    }
  }

  // ----- what acquire can count on -----

  /** There are never more free frames than buffers that are queued or about to be. */
  lemma FreeAtMostQueued(s: Pool, buffers: multiset<nat>)
    requires PoolInv(s, buffers)
    ensures |s.alloc.pools[s.stream]| <= |s.queued| + |s.popped| + |s.resetting|
  {
    FreeAndBusy(s.alloc.frames, s.stream);
    LeaseCount(s.leased);
    BufferCount(s.leased);
    SubsetSize(FramesOf(s.leased), BusyBag(s.alloc.frames, s.stream));
    assert |multiset(s.alloc.pools[s.stream])| == |s.alloc.pools[s.stream]|;
    assert |Buffers(s)| == |s.queued| + |s.popped| + |BuffersOf(s.leased)| + |s.resetting|;
  }

  lemma {:induction false} BufferCount(leased: seq<Lease>)
    ensures |BuffersOf(leased)| == |leased|
  {
    if leased != [] {
      BufferCount(leased[..|leased| - 1]);
    }
  }

  lemma SubsetSize(a: multiset<nat>, b: multiset<nat>)
    requires a <= b
    ensures |a| <= |b|
  {
    assert b == a + (b - a);
  }

  /** Some frame of the stream has all its planes back. */
  predicate SomeFrameFree(s: Pool) {
    exists i :: 0 <= i < |s.alloc.frames| && s.alloc.frames[i].stream == s.stream && s.alloc.frames[i].out == {}
  }

  lemma FreeMeansPooled(s: Pool)
    requires Inv(s.alloc) && s.stream in s.alloc.pools
    ensures SomeFrameFree(s) <==> CanPrepare(s.alloc, s.stream)
  {
    if SomeFrameFree(s) {
      var i :| 0 <= i < |s.alloc.frames| && s.alloc.frames[i].stream == s.stream && s.alloc.frames[i].out == {};
      assert Counts(s.alloc.frames[i]);
      InFreeBag(s.alloc.frames, s.stream, i);
      assert i in multiset(s.alloc.pools[s.stream]);
      HeadIsFree(s.alloc, s.stream);
    }
    if CanPrepare(s.alloc, s.stream) {
      HeadIsFree(s.alloc, s.stream);
    }
  }

  /**
   * In every reachable state in which no buffer is just being acquired or released, acquiring
   * succeeds exactly when some frame of the stream has all its planes back.
   */
  lemma AcquireExact(s: Pool, es: seq<Event>, buffers: multiset<nat>)
    requires PoolInv(s, buffers) && Runs(s, es)
    requires Final(s, es).popped == multiset{} && Final(s, es).resetting == multiset{}
    ensures CanAcquire(Final(s, es)) <==> SomeFrameFree(Final(s, es))
  {
    RunKeepsPool(s, es, buffers);
    FreeAtMostQueued(Final(s, es), buffers);
    FreeMeansPooled(Final(s, es));
  }

  /**
   * The second half of an acquire succeeds exactly when a frame is free at that moment.  The first
   * half fails although one is free exactly when no buffer is queued; then another acquire or a
   * release is under way.
   */
  lemma AcquireFails(s: Pool, buffers: multiset<nat>)
    requires PoolInv(s, buffers)
    ensures CanPrepare(s.alloc, s.stream) <==> SomeFrameFree(s)
    ensures SomeFrameFree(s) && s.queued == [] ==> s.popped + s.resetting != multiset{}
  {
    FreeMeansPooled(s);
    FreeAtMostQueued(s, buffers);
    assert |s.popped + s.resetting| == |s.popped| + |s.resetting|;
  }

  /** A new pool: one GstBuffer for each frame of the stream, all of them in. */
  lemma NewPoolInv(alloc: Allocator, stream: Stream, queued: seq<nat>)
    requires Inv(alloc) && HavePlanes(alloc.frames) && stream in alloc.pools
    requires BusyBag(alloc.frames, stream) == multiset{} && |queued| == |alloc.pools[stream]|
    ensures PoolInv(Pool(alloc, stream, queued, multiset{}, [], multiset{}), multiset(queued))
  {
    FreeAndBusy(alloc.frames, stream);
    PlusNothing(multiset(queued));
    assert |multiset(alloc.pools[stream])| == |alloc.pools[stream]|;
    assert |multiset(queued)| == |queued|;
  }

  /** A pool with one buffer and one frame of one plane. */
  function Small(
      stream: Stream, queued: seq<nat>, popped: multiset<nat>, leased: seq<Lease>, resetting: multiset<nat>,
      out: set<nat>): Pool
  {
    var pool := if out == {} then [0] else [];
    Pool(Allocator([Frame(stream, 1, |out|, out)], map[stream := pool], |out|),
         stream, queued, popped, leased, resetting)
  }

  /** All in; popped; leased; being released; and with the plane back before that is done. */
  function AllIn(stream: Stream): Pool {
    Small(stream, [0], multiset{}, [], multiset{}, {})
  }

  function Popped(stream: Stream): Pool {
    Small(stream, [], multiset{0}, [], multiset{}, {})
  }

  function Leased(stream: Stream): Pool {
    Small(stream, [], multiset{}, [Lease(0, 0)], multiset{}, {0})
  }

  function Resetting(stream: Stream, out: set<nat>): Pool {
    Small(stream, [], multiset{}, [], multiset{0}, out)
  }

  lemma SmallInv(stream: Stream)
    ensures PoolInv(AllIn(stream), multiset{0})
  {
    var none: seq<Frame>, frames := [], [Frame(stream, 1, 0, {})];
    assert frames[..0] == none;
    assert FreeBag(none, stream) == multiset{} && PlanesOut(none) == 0 && Allocated(none, stream) == 0;
    assert FreeBag(frames, stream) == multiset{0};
    assert PlanesOut(frames) == 0;
    assert Allocated(frames, stream) == 1;
  }

  lemma SmallPop(stream: Stream)
    ensures Enabled(AllIn(stream), EPop) && Step(AllIn(stream), EPop) == Popped(stream)
  {
  }

  lemma SmallUse(stream: Stream)
    ensures Enabled(Popped(stream), EUse(0)) && Step(Popped(stream), EUse(0)) == Leased(stream)
  {
    assert AllPlanes(0) == {} && AllPlanes(1) == {0};
    var f := Frame(stream, 1, 0, {});
    var pools: map<Stream, seq<nat>> := map[stream := [0]];
    var none: seq<nat> := [];
    var leases: seq<Lease> := [];
    assert LeasedFrame(f) == Frame(stream, 1, 1, {0});
    assert [f][0 := LeasedFrame(f)] == [Frame(stream, 1, 1, {0})];
    assert pools[stream][1..] == none && pools[stream := none] == map[stream := none];
    assert leases + [Lease(0, 0)] == [Lease(0, 0)];
    assert |{0}| == 1;
  }

  lemma SmallReset(stream: Stream)
    ensures Enabled(Leased(stream), EReset(0)) && Step(Leased(stream), EReset(0)) == Resetting(stream, {0})
  {
    assert Without(Leased(stream).leased, 0) == [];
  }

  lemma SmallReturn(stream: Stream)
    ensures Enabled(Resetting(stream, {0}), EPlane(0, 0))
    ensures Step(Resetting(stream, {0}), EPlane(0, 0)) == Resetting(stream, {})
  {
    var f := Frame(stream, 1, 1, {0});
    assert {0} - {0} == {};
    var none: seq<nat> := [];
    var pools: map<Stream, seq<nat>> := map[stream := none];
    assert none + [0] == [0];
    assert pools[stream := none + [0]] == map[stream := [0]];
    assert [f][0 := ReturnedFrame(f, 0)] == [Frame(stream, 1, 0, {})];
  }

  /** A run from s to u. */
  ghost predicate Leads(s: Pool, es: seq<Event>, u: Pool) {
    Runs(s, es) && Final(s, es) == u
  }

  lemma LeadsOn(s: Pool, e: Event, t: Pool, es: seq<Event>, u: Pool)
    requires Enabled(s, e) && Step(s, e) == t && Leads(t, es, u)
    ensures Leads(s, [e] + es, u)
  {
    assert ([e] + es)[1..] == es;
  }

  lemma ToReset(stream: Stream) returns (es: seq<Event>)
    ensures Leads(AllIn(stream), es, Resetting(stream, {}))
  {
    SmallReturn(stream);
    LeadsOn(Resetting(stream, {0}), EPlane(0, 0), Resetting(stream, {}), [], Resetting(stream, {}));
    SmallReset(stream);
    es := [EPlane(0, 0)] + [];
    LeadsOn(Leased(stream), EReset(0), Resetting(stream, {0}), es, Resetting(stream, {}));
    SmallUse(stream);
    es := [EReset(0)] + es;
    LeadsOn(Popped(stream), EUse(0), Leased(stream), es, Resetting(stream, {}));
    SmallPop(stream);
    es := [EUse(0)] + es;
    LeadsOn(AllIn(stream), EPop, Popped(stream), es, Resetting(stream, {}));
    es := [EPop] + es;
  }

  /**
   * Both happen: reset_buffer gives the planes back before release_buffer queues the buffer, and an
   * acquire in between fails although a frame is free; so does one while another has the only
   * buffer in hand.
   */
  lemma AcquireInBetween(stream: Stream) returns (es: seq<Event>)
    ensures PoolInv(AllIn(stream), multiset{0})
    ensures Runs(AllIn(stream), es)
    ensures var t := Final(AllIn(stream), es);
      SomeFrameFree(t) && t.queued == [] && t.popped == multiset{} && t.resetting == multiset{0}
    ensures Leads(AllIn(stream), [EPop] + [], Popped(stream))
    ensures SomeFrameFree(Popped(stream)) && Popped(stream).queued == []
  {
    SmallInv(stream);
    es := ToReset(stream);
    assert Resetting(stream, {}).alloc.frames[0].out == {};
    SmallPop(stream);
    LeadsOn(AllIn(stream), EPop, Popped(stream), [], Popped(stream));
    assert Popped(stream).alloc.frames[0].out == {};
  }
}
