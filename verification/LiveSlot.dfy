/**
 * The live view of kcamera.c: one slot through which the camera thread hands frames to a streaming
 * consumer, with recording beside it.  Each region the code protects by its frame mutex is one
 * step, and the steps of the camera thread, the consumers and the controlling threads interleave in
 * any order.
 */
module LiveSlot {
  import opened Machine
  import opened Wrappers
  import opened Seqs

  const MAX_FRAME_TIMEOUT: U32 := 5000000

  /** A copied frame; `id` counts the calls of kcFrameData. */
  datatype Frame = Frame(id: nat, pts: U64)

  /** What has become of the frame of one call of kcFrameData. */
  datatype Fate =
    | Skipped      // never copied
    | InSlot
    | Delivered    // returned to a consumer, who frees it
    | Freed
    | Discarded    // dropped by kcStart without being freed
    | Recorded     // handed to the recording list

  datatype Clock = Clock(ptsOffset: I64, pts: U64, lastPts: U64, timer: U32)

  /** `mustStop` and `mustStopRecord`: what kcFrameData has still to do after its locked region. */
  datatype Live = Live(
    run: bool, stopping: bool, record: bool, slot: Option<Frame>, clock: Clock,
    mustStop: bool, mustStopRecord: bool, waiting: nat)

  /** The history: the time stamp and the fate of each frame so far, and the frames delivered. */
  datatype History = History(stamps: seq<U64>, fates: seq<Fate>, delivered: seq<Frame>)

  datatype State = State(live: Live, history: History)

  /** What the environment answers to one call of kcFrameData. */
  datatype Answers = Answers(memory: bool, appended: bool, reserveExceeded: bool)

  datatype Event =
    | Capture(pts: U64, now: U32, answers: Answers)   // kcFrameData, the locked region
    | StopRecordDue                                   // its call of kcStopRecord
    | StopDue                                         // its call of kcStopInternal
    | Stop(signal: bool)                              // kcStopInternal by another thread
    | Stopped                                         // kcStopped
    | Start                                           // kcStart
    | Ask(now: U32)                                   // kcNextStreamFrame, up to its wait
    | Deliver                                         // the rest of kcNextStreamFrame
    | StartRecord
    | StopRecord

  function Initial(): State {
    State(Live(false, false, false, None, Clock(-1, 0, 0, 0), false, false, 0), History([], [], []))
  }

  // ----- kcFrameData -----

  predicate TimedOut(l: Live, now: U32) {
    !l.record && l.clock.timer != 0 && ToU32(now - l.clock.timer) > MAX_FRAME_TIMEOUT
  }

  /** The offset after a frame stamped pts: set while it is negative. */
  function NextOffset(offset: I64, pts: U64): I64 {
    if offset < 0 then ToI64(pts) else offset
  }

  function Stamp(c: Clock, pts: U64): U64 {
    ToU64(pts - NextOffset(c.ptsOffset, pts))
  }

  predicate Outdated(record: bool, slot: Option<Frame>, stamp: U64, maxLatency: U32) {
    !record && slot.Some? && ToU64(stamp - slot.value.pts) > maxLatency
  }

  predicate Expired(l: Live, stamp: U64, maxLatency: U32) {
    Outdated(l.record, l.slot, stamp, maxLatency)
  }

  /** Whether the frame is copied, given the slot as the expiry check left it. */
  predicate Wanted(l: Live, stamp: U64, maxLatency: U32) {
    l.run && (l.record || l.slot == None || Expired(l, stamp, maxLatency))
  }

  function CaptureLive(l: Live, id: nat, pts: U64, now: U32, a: Answers, maxLatency: U32): Live {
    if TimedOut(l, now) then l.(mustStop := true)
    else
      var stamp := Stamp(l.clock, pts);
      var kept := if Expired(l, stamp, maxLatency) then None else l.slot;
      var clock := l.clock.(ptsOffset := NextOffset(l.clock.ptsOffset, pts), pts := stamp);
      if Wanted(l, stamp, maxLatency) && !a.memory then
        l.(slot := kept, clock := clock, mustStop := true, mustStopRecord := true)
      else
        var copied := Wanted(l, stamp, maxLatency);
        l.(slot := if copied && !l.record then Some(Frame(id, stamp)) else kept,
           clock := clock.(lastPts := stamp),
           mustStopRecord := l.record && ((copied && !a.appended) || a.reserveExceeded))
  }

  /** The fate of the new frame. */
  function NewFate(l: Live, pts: U64, now: U32, a: Answers, maxLatency: U32): Fate {
    if TimedOut(l, now) || !Wanted(l, Stamp(l.clock, pts), maxLatency) || !a.memory then Skipped
    else if l.record then Recorded
    else InSlot
  }

  /** The frame that was in the slot meets its end. */
  function Ended(fates: seq<Fate>, slot: Option<Frame>, fate: Fate): seq<Fate> {
    if slot.Some? && slot.value.id < |fates| then fates[slot.value.id := fate] else fates
  }

  function CaptureHistory(s: State, pts: U64, now: U32, a: Answers, maxLatency: U32): History {
    var expired := !TimedOut(s.live, now) && Expired(s.live, Stamp(s.live.clock, pts), maxLatency);
    s.history.(
      stamps := s.history.stamps + [Stamp(s.live.clock, pts)],
      fates := Ended(s.history.fates, if expired then s.live.slot else None, Freed)
               + [NewFate(s.live, pts, now, a, maxLatency)])
  }

  // ----- the other steps -----

  /** kcStopInternal: nothing if a stop is under way already. */
  function StopInternal(s: State, join: bool, signal: bool): State {
    if s.live.stopping then s
    else
      var stopped := s.live.(run := false, stopping := !join);
      if !signal then State(stopped, s.history)
      else State(stopped.(slot := None, record := false),
                 s.history.(fates := Ended(s.history.fates, s.live.slot, Freed)))
  }

  predicate Enabled(s: State, e: Event) {
    match e
    case Capture(_, _, _) => !s.live.mustStop && !s.live.mustStopRecord
    case StopRecordDue => s.live.mustStopRecord
    case StopDue => s.live.mustStop && !s.live.mustStopRecord
    case Start => !s.live.stopping
    case Deliver => s.live.waiting > 0 && (s.live.slot.Some? || !s.live.run)
    case _ => true
  }

  function Step(s: State, e: Event, maxLatency: U32): State
    requires Enabled(s, e)
  {
    var l := s.live;
    match e
    case Capture(pts, now, a) =>
      State(CaptureLive(l, |s.history.fates|, pts, now, a, maxLatency), CaptureHistory(s, pts, now, a, maxLatency))
    case StopRecordDue => State(l.(record := false, mustStopRecord := false), s.history)
    case StopDue => StopInternal(State(l.(mustStop := false), s.history), false, true)
    case Stop(signal) => StopInternal(s, true, signal)
    case Stopped => State(l.(stopping := false), s.history)
    case Start =>
      State(l.(run := true, slot := None, clock := Clock(-1, 0, 0, 0)),
            s.history.(fates := Ended(s.history.fates, l.slot, Discarded)))
    case Ask(now) => State(l.(clock := l.clock.(timer := now), waiting := l.waiting + 1), s.history)
    case Deliver =>
      State(l.(slot := None, waiting := l.waiting - 1),
            if l.slot == None then s.history   // the consumer gets no frame
            else
              s.history.(fates := Ended(s.history.fates, l.slot, Delivered),
                         delivered := s.history.delivered + [l.slot.value]))
    case StartRecord => State(l.(record := true), s.history)
    case StopRecord => State(l.(record := false), s.history)
  }

  predicate Runs(s: State, es: seq<Event>, maxLatency: U32)
    decreases es
  {
    es == [] || (Enabled(s, es[0]) && Runs(Step(s, es[0], maxLatency), es[1..], maxLatency))
  }

  function Final(s: State, es: seq<Event>, maxLatency: U32): State
    requires Runs(s, es, maxLatency)
    decreases es
  {
    if es == [] then s else Final(Step(s, es[0], maxLatency), es[1..], maxLatency)
  }

  // ----- every frame has one owner -----

  /** The slot holds the one frame that is in the slot, with its own time stamp. */
  predicate SlotOwned(s: State) {
    && |s.history.stamps| == |s.history.fates|
    && (s.live.slot.Some? ==>
          s.live.slot.value.id < |s.history.fates|
          && s.live.slot.value.pts == s.history.stamps[s.live.slot.value.id])
    && forall i :: 0 <= i < |s.history.fates| ==>
         (s.history.fates[i] == InSlot <==> s.live.slot.Some? && s.live.slot.value.id == i)
  }

  /** The frames with fate Delivered, in the order of capture. */
  function DeliveredOf(fates: seq<Fate>, stamps: seq<U64>): seq<Frame>
    requires |fates| == |stamps|
  {
    if fates == [] then []
    else
      var n := |fates| - 1;
      DeliveredOf(fates[..n], stamps[..n]) + if fates[n] == Delivered then [Frame(n, stamps[n])] else []
  }

  predicate NoneDelivered(fates: seq<Fate>, from: nat) {
    forall i :: from <= i < |fates| ==> fates[i] != Delivered
  }

  /** What has been delivered is a subsequence of what has been captured, and the slot is newer. */
  predicate InOrder(s: State) {
    && |s.history.stamps| == |s.history.fates|
    && s.history.delivered == DeliveredOf(s.history.fates, s.history.stamps)
    && (s.live.slot.Some? ==> NoneDelivered(s.history.fates, s.live.slot.value.id))
  }

  /** While a stop is under way nothing runs, and the slot is empty. */
  predicate Quiet(l: Live) {
    !l.run && l.slot == None
  }

  predicate Inv(s: State) {
    SlotOwned(s) && InOrder(s) && (s.live.stopping ==> Quiet(s.live))
  }

  lemma CaptureKeepsSlot(s: State, pts: U64, now: U32, a: Answers, maxLatency: U32)
    requires SlotOwned(s) && Enabled(s, Capture(pts, now, a))
    ensures SlotOwned(Step(s, Capture(pts, now, a), maxLatency))
  {
  }

  lemma StepKeepsSlot(s: State, e: Event, maxLatency: U32)
    requires SlotOwned(s) && Enabled(s, e)
    ensures SlotOwned(Step(s, e, maxLatency))
  {
    match e
    case Capture(pts, now, a) => CaptureKeepsSlot(s, pts, now, a, maxLatency);
    case _ =>
  }

  /** So the frames delivered are distinct ones, in the order of capture. */
  lemma {:induction false} DeliveredAscend(fates: seq<Fate>, stamps: seq<U64>, j: nat, k: nat)
    requires |fates| == |stamps| && j < k < |DeliveredOf(fates, stamps)|
    ensures DeliveredOf(fates, stamps)[j].id < DeliveredOf(fates, stamps)[k].id < |fates|
  {
    var n := |fates| - 1;
    var d := DeliveredOf(fates[..n], stamps[..n]);
    if k < |d| {
      DeliveredAscend(fates[..n], stamps[..n], j, k);
    } else {
      DeliveredBelow(fates[..n], stamps[..n], j);
    }
  }

  lemma {:induction false} DeliveredBelow(fates: seq<Fate>, stamps: seq<U64>, j: nat)
    requires |fates| == |stamps| && j < |DeliveredOf(fates, stamps)|
    ensures DeliveredOf(fates, stamps)[j].id < |fates|
  {
    var n := |fates| - 1;
    if j < |DeliveredOf(fates[..n], stamps[..n])| {
      DeliveredBelow(fates[..n], stamps[..n], j);
    }
  }

  lemma DeliveredPush(fates: seq<Fate>, stamps: seq<U64>, f: Fate, x: U64)
    requires |fates| == |stamps|
    ensures DeliveredOf(fates + [f], stamps + [x])
         == DeliveredOf(fates, stamps) + if f == Delivered then [Frame(|fates|, x)] else []
  {
    InitLast(fates, f);
    InitLast(stamps, x);
  }

  /** Another fate for a frame that is not delivered, and none after it. */
  lemma {:induction false} DeliveredUpdate(fates: seq<Fate>, stamps: seq<U64>, i: nat, f: Fate)
    requires i < |fates| == |stamps| && NoneDelivered(fates, i)
    ensures DeliveredOf(fates[i := f], stamps)
         == DeliveredOf(fates, stamps) + if f == Delivered then [Frame(i, stamps[i])] else []
  {
    var n := |fates| - 1;
    assert fates[n] != Delivered;
    if i == n {
      assert fates[i := f][..n] == fates[..n];
    } else {
      assert fates[i := f][..n] == fates[..n][i := f];
      DeliveredUpdate(fates[..n], stamps[..n], i, f);
    }
  }

  lemma EndedDelivered(fates: seq<Fate>, stamps: seq<U64>, slot: Option<Frame>, f: Fate)
    requires |fates| == |stamps| && f != Delivered
    requires slot.Some? ==> slot.value.id < |fates| && NoneDelivered(fates, slot.value.id)
    ensures DeliveredOf(Ended(fates, slot, f), stamps) == DeliveredOf(fates, stamps)
  {
    if slot.Some? {
      DeliveredUpdate(fates, stamps, slot.value.id, f);
    }
  }

  lemma CaptureInOrder(s: State, pts: U64, now: U32, a: Answers, maxLatency: U32)
    requires SlotOwned(s) && InOrder(s) && Enabled(s, Capture(pts, now, a))
    ensures InOrder(Step(s, Capture(pts, now, a), maxLatency))
  {
    var h := s.history;
    var expired := !TimedOut(s.live, now) && Expired(s.live, Stamp(s.live.clock, pts), maxLatency);
    var ended := if expired then s.live.slot else None;
    EndedDelivered(h.fates, h.stamps, ended, Freed);
    DeliveredPush(Ended(h.fates, ended, Freed), h.stamps, NewFate(s.live, pts, now, a, maxLatency),
                  Stamp(s.live.clock, pts));
  }

  lemma StepKeepsOrder(s: State, e: Event, maxLatency: U32)
    requires SlotOwned(s) && InOrder(s) && Enabled(s, e)
    ensures InOrder(Step(s, e, maxLatency))
  {
    var h := s.history;
    match e
    case Capture(pts, now, a) => CaptureInOrder(s, pts, now, a, maxLatency);
    case Deliver =>
      if s.live.slot.Some? {
        DeliveredUpdate(h.fates, h.stamps, s.live.slot.value.id, Delivered);
      }
    case Start => EndedDelivered(h.fates, h.stamps, s.live.slot, Discarded);
    case _ => EndedDelivered(h.fates, h.stamps, s.live.slot, Freed);
  }
}
