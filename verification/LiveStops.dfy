/** Stopping the live view, and serving its consumers. */
module LiveStops {
  import opened Machine
  import opened LiveSlot
  import opened LiveRuns

  /** A signalled stop leaves an empty slot, whatever else is going on. */
  lemma SignalledStop(s: State, e: Event, maxLatency: U32)
    requires Inv(s) && (e == Stop(true) || e == StopDue) && Enabled(s, e)
    ensures Quiet(Step(s, e, maxLatency).live)
  {
  }

  lemma StepStaysQuiet(s: State, e: Event, maxLatency: U32)
    requires Quiet(s.live) && Enabled(s, e) && e != Start
    ensures Quiet(Step(s, e, maxLatency).live)
    ensures Step(s, e, maxLatency).history.delivered == s.history.delivered
  {
  }

  /** Nothing enters the slot, and nothing is delivered, until the next kcStart. */
  lemma {:induction false} StaysQuiet(s: State, es: seq<Event>, maxLatency: U32)
    requires Quiet(s.live) && Runs(s, es, maxLatency) && Start !in es
    ensures Quiet(Final(s, es, maxLatency).live)
    ensures Final(s, es, maxLatency).history.delivered == s.history.delivered
    decreases es
  {
    if es != [] {
      StepStaysQuiet(s, es[0], maxLatency);
      StaysQuiet(Step(s, es[0], maxLatency), es[1..], maxLatency);
    }
  }

  /** A waiting consumer is served by the next frame while streaming, or released by the stop. */
  lemma ConsumerIsServed(s: State, pts: U64, now: U32, a: Answers, maxLatency: U32)
    requires s.live.waiting > 0 && Enabled(s, Capture(pts, now, a)) && s.live.run
    requires !s.live.record && !TimedOut(s.live, now)
    ensures Enabled(Step(s, Capture(pts, now, a), maxLatency), Deliver) <==>
      a.memory || (s.live.slot.Some? && !Expired(s.live, Stamp(s.live.clock, pts), maxLatency))
    ensures !a.memory ==> Step(s, Capture(pts, now, a), maxLatency).live.mustStop || s.live.slot.Some?
  {
  }

  /** A camera nobody has asked for a frame for five seconds, and that does not record, is stopped. */
  lemma IdleCameraStops(s: State, pts: U64, now: U32, a: Answers, maxLatency: U32)
    requires Inv(s) && Enabled(s, Capture(pts, now, a)) && !s.live.record
    requires s.live.clock.timer != 0 && (now - s.live.clock.timer) % 0x1_0000_0000 > 5000000
    ensures var t := Step(s, Capture(pts, now, a), maxLatency);
      Enabled(t, StopDue) && t.live.slot == s.live.slot && Quiet(Step(t, StopDue, maxLatency).live)
  {
    StepKeeps(s, Capture(pts, now, a), maxLatency);
  }
}
