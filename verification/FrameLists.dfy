/** The recording list as a mutable object: framelist.c. */
module FrameLists {
  import opened Machine
  import opened FrameRecord
  import opened FrameNodes
  import opened Wrappers

  // ----- the steps of one append -----

  ghost function WithFrames(r: Record, fs: seq<Frame>): Record
    requires |fs| <= |r.frames|
  {
    r.(frames := fs, cursor := Shift(r.cursor, |r.frames| - |fs|))
  }

  /** After the delayed start is dealt with: the one frame it holds may be gone. */
  ghost function Delay(r: Record, f: Frame): Record {
    var held := if Delayed(r) && TooEarly(r, f) && |r.frames| == 1 then [] else r.frames;
    WithFrames(r, held).(recording := NextRecording(r, f), t0 := NextT0(r, f))
  }

  ghost function Push(r: Record, f: Frame): Record {
    r.(frames := r.frames + [f])
  }

  /** After the pre-roll window is trimmed. */
  ghost function Trim(r: Record, f: Frame): Record {
    if Rolling(r) then WithFrames(r, Unexpired(r.frames, Cutoff(r, f))) else r
  }

  /** Before the duration is looked at. */
  ghost function Placed(r: Record, f: Frame): Record {
    Record(NextRecording(r, f), Kept(r, f), Shift(r.cursor, |r.frames| + 1 - |Kept(r, f)|), r.readIndex,
           NextT0(r, f), r.startShift, r.duration)
  }

  lemma StepsOfAppend(r: Record, f: Frame)
    requires r.recording != 0
    ensures var pushed := Push(Delay(r, f), f);
      && Trim(pushed, f) == Placed(r, f)
      && Freed(r, f) == |r.frames| - |Delay(r, f).frames| + |pushed.frames| - |Trim(pushed, f).frames|
      && |Delay(r, f).frames| <= |r.frames| && |Trim(pushed, f).frames| <= |pushed.frames|
  {
  }

  class FrameList {
    const startShift: I32
    const duration: U32
    const chain: NodeChain
    var recording: int
    var readIndex: nat
    var t0: I32

    ghost predicate Valid()
      reads this, chain, chain.repr
    {
      chain.Valid()
    }

    /** The record this list stands for. */
    ghost function Abs(): Record
      reads this, chain
    {
      Record(recording, chain.frames, chain.cursor, readIndex, t0, startShift, duration)
    }

    constructor (startShift: I32, duration: U32)
      ensures Valid() && Abs() == Init(startShift, duration)
      ensures fresh(chain) && chain.repr == {}
    {
      this.startShift, this.duration := startShift, duration;
      chain := new NodeChain();
      recording := if startShift == 0 then 1 else -1;
      readIndex, t0 := 0, -1;
    }

    /** Forget every frame and start over with the same start shift and duration. */
    method Clear()
      modifies this, chain
      ensures Valid() && Abs() == Init(startShift, duration)
    {
      chain.Clear();
      recording := if startShift == 0 then 1 else -1;
      readIndex, t0 := 0, -1;
    }

    /**
     * Append a frame.  The caller must not have a cursor that points into one of the nodes this
     * append frees.
     */
    method AppendFrame(frame: Frame) returns (code: int)
      requires Valid()
      requires CursorSafe(Abs(), frame)
      modifies this, chain, chain.repr
      ensures Valid()
      ensures Abs() == Append(old(Abs()), frame)
      ensures code == if old(recording) != 0 && recording == 0 then -1 else 0
      ensures fresh(chain.repr - old(chain.repr))
    {
      code := 0;
      if recording != 0 {
        PlaceFrame(frame);
        if duration != 0 {
          var t := FlistTime();
          if t >= duration {
            recording, code := 0, -1;
          }
        }
      }
    }

    /** streamer_start: switch the list to recording, whatever it was doing. */
    method Start()
      requires Valid()
      modifies this`recording
      ensures Valid() && Abs() == old(Abs()).(recording := 1)
    {
      recording := 1;
    }

    /** kcStopRecord: reflect that the list is no longer recording. */
    method Stop()
      requires Valid()
      modifies this`recording
      ensures Valid() && Abs() == old(Abs()).(recording := 0)
    {
      recording := 0;
    }

    /** Everything an append does before it looks at the duration. */
    method PlaceFrame(frame: Frame)
      requires Valid() && recording != 0
      requires CursorSafe(Abs(), frame)
      modifies this, chain, chain.repr
      ensures Valid() && chain.nodes != []
      ensures Abs() == Placed(old(Abs()), frame)
      ensures fresh(chain.repr - old(chain.repr))
    {
      ghost var r := Abs();
      ghost var held := Delay(r, frame);
      ghost var pushed := Push(held, frame);
      StepsOfAppend(r, frame);
      DelayStart(frame);
      assert Abs() == held;
      AddNode(frame);
      assert Abs() == pushed;
      TrimWindow(frame);
    }

    /** Note the first time stamp; while a delayed start has not expired keep at most one frame. */
    method DelayStart(frame: Frame)
      requires Valid()
      requires chain.cursor == 0 || |chain.frames| - |Delay(Abs(), frame).frames| < chain.cursor
      modifies this, chain
      ensures Valid()
      ensures Abs() == Delay(old(Abs()), frame)
      ensures chain.repr == old(chain.repr)
    {
      if t0 < 0 {
        t0 := ToI32(frame.pts);
      }
      if startShift > 0 && recording == -1 {
        if ToU64(frame.pts - t0) < ToU64(startShift) {
          if chain.len == 1 {
            chain.FreeFront();
          }
        } else {
          recording := 1;
        }
      }
    }

    method AddNode(frame: Frame)
      requires Valid()
      modifies chain, chain.repr
      ensures Valid() && chain.nodes != []
      ensures Abs() == Push(old(Abs()), frame)
      ensures fresh(chain.repr - old(chain.repr))
    {
      chain.PushBack(frame);
    }

    method TrimWindow(frame: Frame)
      requires Valid() && chain.nodes != []
      requires chain.cursor == 0 || |chain.frames| - |Trim(Abs(), frame).frames| < chain.cursor
      modifies chain
      ensures Valid() && chain.nodes != []
      ensures Abs() == Trim(old(Abs()), frame)
      ensures chain.repr == old(chain.repr)
    {
      if startShift < 0 && recording == -1 {
        var _ := chain.TrimBefore(ToI64(frame.pts + startShift));
      }
    }

    method FlistTime() returns (t: U32)
      requires Valid() && chain.nodes != []
      ensures t == Time(chain.frames)
    {
      t := ToU32(chain.back.frame.pts - chain.front.frame.pts);
    }

    method FlistSeek(n: nat) returns (code: int)
      requires Valid()
      modifies this, chain
      ensures Valid() && chain.nodes == old(chain.nodes) && chain.repr == old(chain.repr)
      ensures Abs() == Seek(old(Abs()), n)
      ensures code == if n < |Abs().frames| then 0 else -1
    {
      if n >= chain.len {
        return -1;
      }
      readIndex := 0;
      chain.Rewind();
      chain.CurrentIs();
      while chain.Current() != null && readIndex != n
        invariant Valid() && chain.nodes == old(chain.nodes) && chain.repr == old(chain.repr)
        invariant readIndex <= n < chain.len
        invariant chain.Current() == chain.nodes[readIndex]
        invariant Abs() == Seek(old(Abs()), readIndex)
        decreases n - readIndex
      {
        StepOn();
      }
      return 0;
    }

    /** Move the cursor on by one node. */
    method StepOn()
      requires Valid() && chain.cursor < |chain.nodes|
      modifies this, chain
      ensures Valid() && chain.nodes == old(chain.nodes) && chain.repr == old(chain.repr)
      ensures Abs() == Advanced(old(Abs()), 1)
      ensures chain.cursor < |chain.nodes| ==> chain.Current() == chain.nodes[chain.cursor]
    {
      chain.Advance();
      readIndex := readIndex + 1;
      chain.CurrentIs();
    }

    method FlistNext() returns (frame: Option<Frame>)
      requires Valid()
      modifies this, chain
      ensures Valid() && chain.nodes == old(chain.nodes) && chain.repr == old(chain.repr)
      ensures Abs() == Next(old(Abs()))
      ensures frame == NextFrame(old(Abs()))
    {
      chain.CurrentIs();
      var node := chain.Current();
      if node == null {
        return None;
      }
      frame := Some(node.frame);
      StepOn();
    }

    method FlistEnd() returns (end: bool)
      requires Valid()
      ensures end == AtEnd(Abs())
    {
      chain.CurrentIs();
      end := chain.Current() == null;
    }

    /** Walk the whole list and put the cursor back.  (What it prints on the way is not modelled.) */
    method FlistVerify()
      requires Valid()
      modifies this, chain
      ensures Valid() && chain.nodes == old(chain.nodes) && chain.repr == old(chain.repr)
      ensures Abs() == Verify(old(Abs()))
    {
      var index := readIndex;
      var _ := FlistSeek(0);
      ghost var start := Abs();
      var frame := FlistNext();
      while frame.Some?
        invariant Valid() && chain.nodes == old(chain.nodes) && chain.repr == old(chain.repr)
        invariant Drain(Abs()) == Drain(start)
        invariant frame.None? ==> AtEnd(Abs())
        decreases |chain.nodes| - chain.cursor, frame.Some?
      {
        frame := FlistNext();
      }
      var _ := FlistSeek(index);
    }
  }
}
