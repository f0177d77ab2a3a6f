/** H264Encoder: its two queues, and the threads' steps on them. */
module H264Encoder {
  import opened Machine
  import opened Wrappers
  import opened EncoderQueues

  const NUM_OUTPUT_BUFFERS := 6
  const NUM_CAPTURE_BUFFERS := 12

  class Encoder264 {
    const narrow: bool
    var available: seq<nat>      // input_buffers_available_
    var outputQueue: seq<Item>   // output_queue_
    ghost var state: Encoder     // these queues, and where the other buffers are

    ghost predicate Valid()
      reads this
    {
      state.ins.available == available && state.outs.queue == outputQueue && state.narrow == narrow
    }

    /** `inputs` and `captures` are the numbers of buffers the device grants. */
    constructor (inputs: nat, captures: nat, narrow: bool)
      requires inputs <= NUM_OUTPUT_BUFFERS && captures <= NUM_CAPTURE_BUFFERS
      ensures Valid() && state == Opened(inputs, captures, narrow)
    {
      this.narrow := narrow;
      var ready: seq<nat> := [];
      for i := 0 to inputs
        invariant ready == Upto(i)
      {
        ready := ready + [i];
      }
      available, outputQueue := ready, [];
      state := Opened(inputs, captures, narrow);
    }

    /** EncodeBuffer, the locked region; None where it throws. */
    method TakeBuffer(us: I64) returns (index: Option<nat>)
      requires Valid()
      modifies this
      ensures Valid() && state == Step(old(state), Take(us))
      ensures if index == None then available == old(available) == [] && state == old(state)
        else [index.value] + available == old(available)
             && state.ins.inHand == old(state.ins.inHand) + [Input(index.value, us)]
      ensures outputQueue == old(outputQueue)
    {
      state := Step(state, Take(us));
      if available == [] {
        return None;
      }
      index := Some(available[0]);
      available := available[1..];
    }

    /** The rest of EncodeBuffer: what it queues to the device for a buffer it took, and if it throws. */
    method QueueBuffer(index: nat, us: I64, accepted: bool, ghost k: nat) returns (job: Job, ok: bool)
      requires Valid() && k < |state.ins.inHand| && state.ins.inHand[k] == Input(index, us)
      modifies this
      ensures Valid() && state == Step(old(state), Submit(k, accepted)) && ok == accepted
      ensures accepted ==> state.ins.pending == old(state.ins.pending) + [job]
      ensures job.index == index && available == old(available) && outputQueue == old(outputQueue)
    {
      TruncBounds(us);
      var sec: I64 := TruncDiv(us, MILLION);
      job := Job(index, Time(if narrow then ToI32(sec) else sec, TruncMod(us, MILLION)));
      ok := accepted;
      state := Step(state, Submit(k, accepted));
    }

    /** pollThread: the device is through with an input buffer. */
    method InputDone(index: nat)
      requires Valid() && index in state.ins.done
      modifies this
      ensures Valid() && state == Step(old(state), ReturnInput(index))
      ensures available == old(available) + [index] && outputQueue == old(outputQueue)
    {
      state := Step(state, ReturnInput(index));
      available := available + [index];
    }

    /** pollThread: the device gives out an encoded buffer. */
    method PushOutput(job: Job, ghost k: nat)
      requires Valid() && k < |state.outs.encoded| && state.outs.encoded[k] == job
      modifies this
      ensures Valid() && state == Step(old(state), Collect(k))
      ensures outputQueue == old(outputQueue) + [Item(job.index, ToI64(job.time.sec * 1000000 + job.time.usec))]
      ensures available == old(available)
    {
      state := Step(state, Collect(k));
      var us := ToI64(job.time.sec * MILLION + job.time.usec);
      outputQueue := outputQueue + [Item(job.index, us)];
    }

    /**
     * One look of GetOutput at the queue.  After a wait it looks at the abort flag first, and gives
     * up although an item may be there; before it has waited it does not look at the flag.
     */
    method TakeOutput(waited: bool, abort: bool) returns (item: Option<Item>, wait: bool)
      requires Valid()
      modifies this
      ensures Valid()
      ensures if waited && abort then item == None && !wait && state == old(state)
        else if old(outputQueue) == [] then item == None && wait && state == old(state)
        else item.Some? && [item.value] + outputQueue == old(outputQueue) && !wait
             && state == Step(old(state), GetOutput)
    {
      item, wait := None, false;
      if waited && abort {
        return;
      }
      if outputQueue != [] {
        item := Some(outputQueue[0]);
        state := Step(state, GetOutput);
        outputQueue := outputQueue[1..];
      } else {
        wait := true;
      }
    }

    /**
     * OutputDone: the buffer goes back to the device, and is nobody else's any more; false where it
     * throws.
     */
    method FinishOutput(item: Item, accepted: bool, ghost k: nat, ghost n: nat, ghost m: nat) returns (ok: bool)
      requires Valid() && Inv(state, n, m) && k < |state.outs.held| && state.outs.held[k] == item
      modifies this
      ensures Valid() && Inv(state, n, m) && ok == accepted && state == Step(old(state), OutputDone(k, accepted))
      ensures item.index !in ItemIndices(state.outs.held) && item.index !in ItemIndices(state.outs.queue)
      ensures accepted <==> item.index in state.outs.empty
    {
      GivenBack(state, k, accepted, n, m);
      state := Step(state, OutputDone(k, accepted));
      ok := accepted;
    }
  }
}
