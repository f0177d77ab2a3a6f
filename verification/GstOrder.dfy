/** The queues of the GStreamer pool are first in, first out: its buffers, and each stream's frames. */
module GstOrder {
  import A = GstAllocator
  import opened GstPool
  import opened Seqs

  // ----- the buffers of a pool -----

  /** The buffer that a step puts into the queue, and the one that it takes in hand. */
  function Pushing(s: Pool, e: Event): seq<nat>
    requires Enabled(s, e)
  {
    match e
    case EPush(b) => [b]
    case EUse(b) => if A.CanPrepare(s.alloc, s.stream) then [] else [b]
    case _ => []
  }

  function Popping(s: Pool, e: Event): seq<nat>
    requires Enabled(s, e)
  {
    if e.EPop? then [s.queued[0]] else []
  }

  function Pushed(s: Pool, es: seq<Event>): seq<nat>
    requires Runs(s, es)
    decreases es
  {
    if es == [] then [] else Pushing(s, es[0]) + Pushed(Step(s, es[0]), es[1..])
  }

  function PoppedIn(s: Pool, es: seq<Event>): seq<nat>
    requires Runs(s, es)
    decreases es
  {
    if es == [] then [] else Popping(s, es[0]) + PoppedIn(Step(s, es[0]), es[1..])
  }

  lemma StepBuffers(s: Pool, e: Event)
    requires Enabled(s, e)
    ensures s.queued + Pushing(s, e) == Popping(s, e) + Step(s, e).queued
    ensures e.EPop? ==> Step(s, e).popped == s.popped + multiset(Popping(s, e))
  {
  }

  /** Buffers are taken in the order in which they were released or put back. */
  lemma {:induction false} BuffersInOrder(s: Pool, es: seq<Event>)
    requires Runs(s, es)
    ensures s.queued + Pushed(s, es) == PoppedIn(s, es) + Final(s, es).queued
    decreases es
  {
    if es == [] {
      ConcatEmpty(s.queued);
    } else {
      var t, rest := Step(s, es[0]), es[1..];
      StepBuffers(s, es[0]);
      BuffersInOrder(t, rest);
      Assoc(s.queued, Pushing(s, es[0]), Pushed(t, rest));
      Assoc(Popping(s, es[0]), t.queued, Pushed(t, rest));
      Assoc(Popping(s, es[0]), PoppedIn(t, rest), Final(s, es).queued);
    }
  }

  // ----- the frames of a stream -----

  function FramesOfStream(s: Pool): seq<nat> {
    if s.stream in s.alloc.pools then s.alloc.pools[s.stream] else []
  }

  /** The frame of the stream whose last plane a step returns, and the one that it leases. */
  function Joining(s: Pool, e: Event): seq<nat>
    requires Enabled(s, e)
  {
    if e.EPlane? && s.alloc.frames[e.i].stream == s.stream && s.alloc.frames[e.i].outstanding == 1 then [e.i] else []
  }

  function Leasing(s: Pool, e: Event): seq<nat>
    requires Enabled(s, e)
  {
    var leased := Step(s, e).leased;
    if e.EUse? && |leased| > |s.leased| then [leased[|leased| - 1].frame] else []
  }

  function Joined(s: Pool, es: seq<Event>): seq<nat>
    requires Runs(s, es)
    decreases es
  {
    if es == [] then [] else Joining(s, es[0]) + Joined(Step(s, es[0]), es[1..])
  }

  function LeasedIn(s: Pool, es: seq<Event>): seq<nat>
    requires Runs(s, es)
    decreases es
  {
    if es == [] then [] else Leasing(s, es[0]) + LeasedIn(Step(s, es[0]), es[1..])
  }

  lemma StepFrames(s: Pool, e: Event)
    requires Enabled(s, e)
    ensures FramesOfStream(s) + Joining(s, e) == Leasing(s, e) + FramesOfStream(Step(s, e))
  {
  }

  /** The frames of the stream are leased in the order in which their last planes came back. */
  lemma {:induction false} FramesInOrder(s: Pool, es: seq<Event>)
    requires Runs(s, es)
    ensures FramesOfStream(s) + Joined(s, es) == LeasedIn(s, es) + FramesOfStream(Final(s, es))
    decreases es
  {
    if es == [] {
      ConcatEmpty(FramesOfStream(s));
    } else {
      var t, rest := Step(s, es[0]), es[1..];
      StepFrames(s, es[0]);
      FramesInOrder(t, rest);
      Assoc(FramesOfStream(s), Joining(s, es[0]), Joined(t, rest));
      Assoc(Leasing(s, es[0]), FramesOfStream(t), Joined(t, rest));
      Assoc(Leasing(s, es[0]), LeasedIn(t, rest), FramesOfStream(Final(s, es)));
    }
  }
}
