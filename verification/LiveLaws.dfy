/**
 * What one frame does to the live view, written out in microseconds: which frame is left in the
 * slot, and when the frame ends the recording or stops the camera.
 */
module LiveLaws {
  import opened Machine
  import opened Wrappers
  import opened LiveSlot
  import L = FrameRecord
  import C = FrameCodes
  import FrameRuns

  // ----- when the camera is stopped -----

  /**
   * With memory available a frame stops the camera exactly if nothing is being recorded, somebody
   * has asked for a frame since the start, and nobody has for more than five seconds.
   */
  lemma StopsWhen(s: State, pts: U64, now: U32, a: Answers, maxLatency: U32)
    requires Enabled(s, Capture(pts, now, a)) && a.memory
    ensures Step(s, Capture(pts, now, a), maxLatency).live.mustStop <==>
      && !s.live.record && s.live.clock.timer != 0
      && (now - s.live.clock.timer) % 0x1_0000_0000 > 5000000
  {
  }

  /**
   * A consumer that asks a running camera with an empty slot finds the next frame there, if it comes
   * within five seconds; the camera goes on and counts five seconds from that question.
   */
  lemma AskedInTime(s: State, t: U32, pts: U64, now: U32, a: Answers, maxLatency: U32)
    requires s.live.run && !s.live.record && s.live.slot == None && a.memory
    requires Enabled(Step(s, Ask(t), maxLatency), Capture(pts, now, a)) && (now - t) % 0x1_0000_0000 <= 5000000
    ensures var u := Step(Step(s, Ask(t), maxLatency), Capture(pts, now, a), maxLatency);
      && !u.live.mustStop && u.live.clock.timer == t && u.live.slot.Some?
      && u.live.slot.value.id == |s.history.fates| && u.history.fates == s.history.fates + [InSlot]
      && Enabled(u, Deliver)
  {
  }

  // ----- which frame is in the slot -----

  /**
   * While streaming, the frame in the slot stays exactly as long as it is not more than maxLatency
   * older than the one that comes; the place of an older one, or a free place, goes to that one.
   */
  lemma SlotAfter(s: State, pts: U64, now: U32, a: Answers, maxLatency: U32)
    requires Enabled(s, Capture(pts, now, a)) && !s.live.record && s.live.run && a.memory
    requires s.live.clock.timer == 0 || (now - s.live.clock.timer) % 0x1_0000_0000 <= 5000000
    ensures var slot, u := s.live.slot, Step(s, Capture(pts, now, a), maxLatency);
      var offset := if s.live.clock.ptsOffset < 0 then ToI64(pts) else s.live.clock.ptsOffset;
      var stamp := (pts - offset) % 0x1_0000_0000_0000_0000;
      && u.live.clock.pts == u.live.clock.lastPts == stamp
      && u.live.slot ==
           if slot.Some? && (stamp - slot.value.pts) % 0x1_0000_0000_0000_0000 <= maxLatency then slot
           else Some(Frame(|s.history.fates|, stamp))
  {
  }

  /** A frame that is recorded leaves the slot alone, and goes to the list while the camera runs. */
  lemma RecordedFrame(s: State, pts: U64, now: U32, a: Answers, maxLatency: U32)
    requires Enabled(s, Capture(pts, now, a)) && s.live.record
    ensures var u := Step(s, Capture(pts, now, a), maxLatency);
      && u.live.slot == s.live.slot && u.live.record
      && u.history.fates == s.history.fates + [if s.live.run && a.memory then Recorded else Skipped]
  {
  }

  // ----- when a recording is ended -----

  /**
   * A recorded frame ends the recording exactly if there is no memory for it, the list does not take
   * it as it should, or the memory reserve is used up; without memory it stops the camera too.
   */
  lemma EndsRecordingWhen(s: State, pts: U64, now: U32, a: Answers, maxLatency: U32)
    requires Enabled(s, Capture(pts, now, a)) && s.live.record && s.live.run
    ensures var u := Step(s, Capture(pts, now, a), maxLatency);
      && (u.live.mustStopRecord <==> !a.memory || !a.appended || a.reserveExceeded)
      && (u.live.mustStop <==> !a.memory)
  {
  }

  /**
   * So a recording ends with the frame that makes its list reach the duration: `r` is the list, and
   * the answer of flistAppend is what the camera goes by.
   */
  lemma RecordingEnds(s: State, pts: U64, now: U32, a: Answers, maxLatency: U32, r: L.Record, f: L.Frame)
    requires Enabled(s, Capture(pts, now, a)) && s.live.record && s.live.run && a.memory && !a.reserveExceeded
    requires r.recording == 1 && a.appended == (C.Code(r, f) >= 0)
    ensures var u := Step(s, Capture(pts, now, a), maxLatency);
      && (u.live.mustStopRecord <==> L.Reached(r.frames + [f], r.duration))
      && (u.live.mustStopRecord ==>
            Enabled(u, StopRecordDue) && !Step(u, StopRecordDue, maxLatency).live.record
            && Step(u, StopRecordDue, maxLatency).live.run)
  {
    EndsRecordingWhen(s, pts, now, a, maxLatency);
    FrameRuns.RecordingStep(r, f);
  }

  // ----- what becomes of the frame in the slot -----

  /**
   * The frame in the slot is freed by a stop that is signalled and by a newer frame that finds it
   * expired, dropped without being freed by kcStart, and otherwise belongs to the consumer that
   * takes it.
   */
  lemma FateOfSlot(s: State, e: Event, maxLatency: U32)
    requires LiveSlot.Inv(s) && Enabled(s, e) && s.live.slot.Some? && Step(s, e, maxLatency).live.slot != s.live.slot
    ensures var i, t := s.live.slot.value.id, Step(s, e, maxLatency);
      && i < |t.history.fates|
      && t.history.fates[i] ==
           (match e
            case Capture(_, _, _) => Freed
            case StopDue => Freed
            case Stop(_) => Freed
            case Start => Discarded
            case _ => Delivered)
      && (t.history.fates[i] == Delivered <==> e == Deliver)
  {
  }

  // ----- consumers, and what a frame leaves to be done -----

  function Asked(es: seq<Event>): nat {
    if es == [] then 0 else (if es[0].Ask? then 1 else 0) + Asked(es[1..])
  }

  function Served(es: seq<Event>): nat {
    if es == [] then 0 else (if es[0] == Deliver then 1 else 0) + Served(es[1..])
  }

  lemma StepWaiting(s: State, e: Event, maxLatency: U32)
    requires Enabled(s, e)
    ensures s.live.waiting + (if e.Ask? then 1 else 0) ==
      (if e == Deliver then 1 else 0) + Step(s, e, maxLatency).live.waiting
  {
    match e
    case Capture(_, _, _) =>
    case StopDue =>
    case Stop(_) =>
    case _ =>
  }

  /** Every question is answered once, or its consumer is still waiting. */
  lemma {:induction false} EachServedOnce(s: State, es: seq<Event>, maxLatency: U32)
    requires Runs(s, es, maxLatency)
    ensures s.live.waiting + Asked(es) == Served(es) + Final(s, es, maxLatency).live.waiting
    decreases es
  {
    if es != [] {
      StepWaiting(s, es[0], maxLatency);
      EachServedOnce(Step(s, es[0], maxLatency), es[1..], maxLatency);
    }
  }

  /** What a frame leaves to be done is done once: then the next frame can come. */
  lemma DueIsDone(s: State, pts: U64, now: U32, a: Answers, maxLatency: U32)
    requires Enabled(s, StopDue) && !s.live.stopping
    ensures var t := Step(s, StopDue, maxLatency);
      && !t.live.mustStop && !t.live.run && t.live.slot == None && !t.live.record && t.live.stopping
      && Enabled(t, Capture(pts, now, a))
  {
  }

  /** Another thread's stop waits for the camera thread, so no stop is under way after it. */
  lemma StopJoins(s: State, signal: bool, maxLatency: U32)
    requires !s.live.stopping
    ensures var t := Step(s, Stop(signal), maxLatency);
      && !t.live.stopping && !t.live.run && Enabled(t, Start)
      && (if signal then t.live.slot == None && !t.live.record
          else t.live.slot == s.live.slot && t.live.record == s.live.record)
  {
  }
}
