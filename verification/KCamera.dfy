/** The state of kcamera.c as an object; its methods are the regions under the frame mutex. */
module KCamera {
  import opened Machine
  import opened Wrappers
  import opened LiveSlot

  class Camera {
    const maxLatency: U32
    var run: bool
    var stopping: bool
    var lastPts: U64
    var frame: Option<Frame>
    var ptsOffset: I64
    var pts: U64
    var frameTimer: U32
    var record: bool        // whether there is a recording list
    ghost var state: State  // these fields, what the threads have still to do, and the history

    ghost predicate Valid()
      reads this
    {
      var l := state.live;
      && l.run == run && l.stopping == stopping && l.record == record && l.slot == frame
      && l.clock == Clock(ptsOffset, pts, lastPts, frameTimer)
    }

    constructor (maxLatency: U32)
      ensures Valid() && state == Initial() && this.maxLatency == maxLatency
    {
      this.maxLatency := maxLatency;
      run, stopping, record, frame := false, false, false, None;
      ptsOffset, pts, lastPts, frameTimer := -1, 0, 0, 0;
      state := Initial();
    }

    /** The middle of kcFrameData: stamp the frame, and drop the one in the slot if it is too old. */
    method StampFrame(camPts: U64)
      modifies this`ptsOffset, this`pts, this`frame
      ensures ptsOffset == NextOffset(old(ptsOffset), camPts)
      ensures pts == Stamp(old(Clock(ptsOffset, pts, lastPts, frameTimer)), camPts)
      ensures frame == if Outdated(record, old(frame), pts, maxLatency) then None else old(frame)
    {
      if ptsOffset < 0 {
        ptsOffset := ToI64(camPts);
      }
      pts := ToU64(camPts - ptsOffset);
      if !record && frame.Some? && ToU64(pts - frame.value.pts) > maxLatency {
        frame := None;
      }
    }

    /** kcFrameData up to its unlock, called for the given time; the results say what it calls next. */
    method FrameData(number: nat, camPts: U64, now: U32, a: Answers) returns (stop: bool, stopRecord: bool)
      requires Valid() && number == |state.history.fates| && Enabled(state, Capture(camPts, now, a))
      modifies this
      ensures Valid() && state == Step(old(state), Capture(camPts, now, a), maxLatency)
      ensures stop == state.live.mustStop && stopRecord == state.live.mustStopRecord
      ensures a.memory ==> (stop <==>
        !old(record) && old(frameTimer) != 0 && (now - old(frameTimer)) % 0x1_0000_0000 > 5000000)
      ensures old(record) && old(run) ==>
        (stopRecord <==> !a.memory || !a.appended || a.reserveExceeded) && frame == old(frame)
    {
      ghost var after := CaptureLive(state.live, number, camPts, now, a, maxLatency);
      state := Step(state, Capture(camPts, now, a), maxLatency);
      assert state.live == after;
      stop, stopRecord := false, false;
      if !record && frameTimer != 0 && ToU32(now - frameTimer) > MAX_FRAME_TIMEOUT {
        stop := true;
        return;
      }
      StampFrame(camPts);
      if (frame == None || record) && run {
        if !a.memory {
          stop, stopRecord := true, true;
          return;
        }
        if record {
          stopRecord := !a.appended;
        } else {
          frame := Some(Frame(number, pts));
        }
      }
      lastPts := pts;
      if record && a.reserveExceeded {
        stopRecord := true;
      }
    }

    /** kcStopInternal, and kcStopRecord before it where kcFrameData asks for that. */
    method StopInternal(join: bool, signal: bool)
      requires Valid()
      modifies this
      ensures Valid() && state == LiveSlot.StopInternal(old(state), join, signal)
      ensures if old(stopping) then run == old(run) && frame == old(frame) && record == old(record) && stopping
        else !run && stopping == !join && (if signal then frame == None && !record
                                           else frame == old(frame) && record == old(record))
    {
      if stopping {
        return;
      }
      state := LiveSlot.StopInternal(state, join, signal);
      run := false;
      if signal {
        if frame.Some? {
          frame := None;
        }
        record := false;
      }
      if !join {
        stopping := true;
      }
    }

    method Stopped()
      requires Valid()
      modifies this
      ensures Valid() && state == Step(old(state), LiveSlot.Stopped, maxLatency)
      ensures !stopping && run == old(run) && frame == old(frame)
    {
      state := Step(state, LiveSlot.Stopped, maxLatency);
      stopping := false;
    }

    /** kcStart, once no stop is under way any more. */
    method Start()
      requires Valid() && Enabled(state, LiveSlot.Start)
      modifies this
      ensures Valid() && state == Step(old(state), LiveSlot.Start, maxLatency)
      ensures run && frame == None && ptsOffset == -1 && pts == lastPts == frameTimer == 0
      ensures !stopping && record == old(record)
    {
      state := Step(state, LiveSlot.Start, maxLatency);
      frame, run, ptsOffset := None, true, -1;
      pts, lastPts, frameTimer, stopping := 0, 0, 0, false;
    }

    /** kcNextStreamFrame, from its lock to its wait. */
    method AskForFrame(now: U32)
      requires Valid()
      modifies this
      ensures Valid() && state == Step(old(state), Ask(now), maxLatency)
      ensures frameTimer == now && frame == old(frame) && run == old(run) && record == old(record)
    {
      state := Step(state, Ask(now), maxLatency);
      frameTimer := now;
    }

    /** The end of kcNextStreamFrame, once there is a frame or the camera has stopped. */
    method TakeFrame() returns (taken: Option<Frame>)
      requires Valid() && Enabled(state, Deliver)
      modifies this
      ensures Valid() && state == Step(old(state), Deliver, maxLatency)
      ensures taken == old(frame) && frame == None && (taken == None ==> !run)
    {
      taken := frame;
      state := Step(state, Deliver, maxLatency);
      frame := None;
    }

    /** kcStartRecord: -1 if a recording is on already. */
    method StartRecord() returns (ret: int)
      requires Valid()
      modifies this
      ensures Valid() && state == Step(old(state), LiveSlot.StartRecord, maxLatency)
      ensures ret == (if old(record) then -1 else 0) && record && frame == old(frame)
    {
      state := Step(state, LiveSlot.StartRecord, maxLatency);
      if record {
        return -1;
      }
      record := true;
      ret := 0;
    }

    method StopRecord()
      requires Valid()
      modifies this
      ensures Valid() && state == Step(old(state), LiveSlot.StopRecord, maxLatency)
      ensures !record && frame == old(frame) && run == old(run)
    {
      state := Step(state, LiveSlot.StopRecord, maxLatency);
      if record {
        record := false;
      }
    }
  }
}
