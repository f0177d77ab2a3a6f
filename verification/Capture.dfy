/** The counted capture as the objects of the cam tool: the event loop and the capture itself. */
module Capture {
  import opened Machine
  import L = CaptureLoop

  type Buffer = nat

  /** The event loop's queue of deferred calls; each of them processes one completed request. */
  class EventLoop {
    var calls: seq<L.Request>
    var exitCode: int
    var broken: bool     // event_base_loopbreak has been called

    constructor ()
      ensures calls == [] && !broken
    {
      calls, exitCode, broken := [], -1, false;
    }

    /** callLater, the locked region. */
    method CallLater(r: L.Request)
      modifies this`calls
      ensures calls == old(calls) + [r]
    {
      calls := calls + [r];
    }

    /** dispatchCall, the locked region: the call to make, if there is one. */
    method NextCall() returns (found: bool, r: L.Request)
      modifies this`calls
      ensures found <==> old(calls) != []
      ensures if found then [r] + calls == old(calls) else calls == old(calls)
    {
      found, r := false, 0;
      if calls == [] {
        return;
      }
      found, r := true, calls[0];
      calls := calls[1..];
    }

    method Exit(code: int)
      modifies this`exitCode, this`broken
      ensures exitCode == code && broken
    {
      exitCode, broken := code, true;
    }
  }

  class CaptureTool {
    const loop: EventLoop
    const limit: U32
    var queueCount: U32
    var captureCount: U32
    ghost var state: L.Capture     // these counters, the loop's calls, and where the requests are

    ghost predicate Valid()
      reads this, loop
    {
      && state.limit == limit && state.queueCount == queueCount && state.captureCount == captureCount
      && state.at.calls == loop.calls && state.exited == loop.broken
      && (loop.broken ==> loop.exitCode == 0)
    }

    constructor (limit: U32, n: nat)
      ensures Valid() && fresh(loop) && state == L.Started(limit, n)
    {
      this.limit, queueCount, captureCount := limit, 0, 0;
      loop := new EventLoop();
      state := L.Started(limit, n);
    }

    /** queueRequest; `accepted` is what the camera answers. */
    method QueueRequest(r: L.Request, accepted: bool) returns (ret: int)
      requires Valid()
      modifies this
      ensures Valid() && state == L.QueueRequest(old(state), r, accepted)
      ensures ret < 0 <==> !accepted && (limit == 0 || old(queueCount) < limit)
      ensures queueCount ==
        if limit != 0 && old(queueCount) >= limit then old(queueCount) else (old(queueCount) + 1) % 0x1_0000_0000
    {
      ret := 0;
      state := L.QueueRequest(state, r, accepted);
      if limit != 0 && queueCount >= limit {
        return;
      }
      queueCount := ToU32(queueCount + 1);
      ret := if accepted then 0 else -1;
    }

    /** One round of the loop that starts the capture. */
    method StartNext(r: L.Request, accepted: bool) returns (ret: int)
      requires Valid() && L.Enabled(state, L.Queue(accepted)) && r == state.at.waiting[0]
      modifies this
      ensures Valid() && state == L.Step(old(state), L.Queue(accepted))
      ensures ret < 0 <==> state.failed
    {
      ghost var refused := !accepted && !L.AtLimit(state);
      state := state.(at := state.at.(waiting := state.at.waiting[1..]), failed := refused);
      ret := QueueRequest(r, accepted);
    }

    /** requestComplete: a cancelled request is dropped, any other one is processed later. */
    method RequestComplete(r: L.Request, cancelled: bool)
      requires Valid() && L.Enabled(state, L.Complete(r))
      modifies this`state, loop`calls
      ensures Valid()
      ensures state == if cancelled then old(state) else L.Step(old(state), L.Complete(r))
    {
      if cancelled {
        return;
      }
      state := L.Step(state, L.Complete(r));
      loop.CallLater(r);
    }

    /** processRequest, from the count of the captured frames on. */
    method ProcessRequest(r: L.Request, accepted: bool)
      requires Valid() && !loop.broken
      modifies this, loop`exitCode, loop`broken
      ensures Valid() && state == L.Process(old(state), r, accepted)
      ensures captureCount == (old(captureCount) + 1) % 0x1_0000_0000
      ensures loop.broken <==> limit != 0 && captureCount >= limit
    {
      ghost var before := state;
      captureCount := ToU32(captureCount + 1);
      state := state.(captureCount := captureCount);
      if limit != 0 && captureCount >= limit {
        state := state.(exited := true, at := L.Queued(state.at, r, true, true));
        loop.Exit(0);
        return;
      }
      var _ := QueueRequest(r, accepted);
    }

    /** The callback of the event loop: dispatchCall. */
    method DispatchCall(accepted: bool)
      requires Valid() && L.Enabled(state, L.Dispatch(accepted))
      modifies this, loop
      ensures Valid() && state == L.Step(old(state), L.Dispatch(accepted))
    {
      ghost var before := state;
      var found, r := loop.NextCall();
      state := state.(notified := state.notified - 1);
      if found {
        assert loop.calls == before.at.calls[1..];
        state := state.(at := state.at.(calls := state.at.calls[1..]));
        ProcessRequest(r, accepted);
      }
    }
  }

  // ----- the requests -----

  const UINT_MAX: U32 := 0xFFFF_FFFF

  /** The least number of buffers that a stream has. */
  method LeastBuffers(counts: seq<U32>) returns (n: U32)
    ensures forall k :: 0 <= k < |counts| ==> n <= counts[k]
    ensures if counts == [] then n == UINT_MAX else n in counts
  {
    n := UINT_MAX;
    for k := 0 to |counts|
      invariant forall j :: 0 <= j < k ==> n <= counts[j]
      invariant if k == 0 then n == UINT_MAX else n in counts
    {
      if counts[k] <= n {
        n := counts[k];
      }
    }
  }

  /** Request i holds the i-th buffer of each stream; no two requests share a buffer of a stream. */
  method MakeRequests(buffers: seq<seq<Buffer>>, n: nat) returns (requests: seq<seq<Buffer>>)
    requires forall k :: 0 <= k < |buffers| ==> n <= |buffers[k]|
    ensures |requests| == n
    ensures forall i :: 0 <= i < n ==> |requests[i]| == |buffers|
    ensures forall i, k :: 0 <= i < n && 0 <= k < |buffers| ==> requests[i][k] == buffers[k][i]
  {
    requests := [];
    for i := 0 to n
      invariant |requests| == i
      invariant forall j :: 0 <= j < i ==> |requests[j]| == |buffers|
      invariant forall j, k :: 0 <= j < i && 0 <= k < |buffers| ==> requests[j][k] == buffers[k][j]
    {
      var request: seq<Buffer> := [];
      for k := 0 to |buffers|
        invariant |request| == k
        invariant forall l :: 0 <= l < k ==> request[l] == buffers[l][i]
      {
        request := request + [buffers[k][i]];
      }
      requests := requests + [request];
    }
  }
}
