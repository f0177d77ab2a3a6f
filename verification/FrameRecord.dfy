/**
 * The recording list as a value.  `Record` is what a list of captured frames with a read cursor
 * stands for; `Append`, `Seek`, `Next` and `Verify` are the operations on it.  The heap structure
 * that implements them is in FrameNodes.dfy and FrameLists.dfy.
 */
module FrameRecord {
  import opened Machine
  import opened Wrappers

  /** A captured frame: the header fields the list looks at, and the whole memory block. */
  datatype Frame = Frame(pts: U64, width: U16, height: U16, block: seq<Byte>)

  /**
   * `recording` is 1 while recording, 0 when stopped, -1 while waiting for (or buffering before) the
   * start.  `cursor` counts the nodes in front of the place `m_readNode` points at; `readIndex` is
   * the counter the C code keeps beside it.  They are different things: see CursorAgrees.
   */
  datatype Record = Record(
    recording: int,
    frames: seq<Frame>,
    cursor: int,
    readIndex: nat,
    t0: I32,
    startShift: I32,
    duration: U32)

  function Init(startShift: I32, duration: U32): Record {
    Record(if startShift == 0 then 1 else -1, [], 0, 0, -1, startShift, duration)
  }

  // ----- appending -----

  /** t0 after an append: the first time stamp seen, as an `int`. */
  function NextT0(r: Record, f: Frame): I32 {
    if r.t0 < 0 then ToI32(f.pts) else r.t0
  }

  /** The delayed start has not expired at f (the comparison is made in uint64_t). */
  predicate TooEarly(r: Record, f: Frame) {
    ToU64(f.pts - NextT0(r, f)) < ToU64(r.startShift)
  }

  predicate Delayed(r: Record) {
    r.startShift > 0 && r.recording == -1
  }

  predicate Rolling(r: Record) {
    r.startShift < 0 && r.recording == -1
  }

  /** The oldest time stamp a pre-roll window ending in f keeps. */
  function Cutoff(r: Record, f: Frame): I64 {
    ToI64(f.pts + r.startShift)
  }

  /** What the trimming loop leaves: it frees the front node while that is old and not the last. */
  function Unexpired(frames: seq<Frame>, t: int): (rest: seq<Frame>)
    ensures |rest| <= |frames| && (frames != [] ==> rest != [])
  {
    if |frames| <= 1 || ToI64(frames[0].pts) >= t then frames else Unexpired(frames[1..], t)
  }

  /** The trimming loop gets to the last node and finds it old too, which it only reports. */
  predicate ReachesBack(frames: seq<Frame>, t: int) {
    frames != [] && ToI64(frames[0].pts) < t && (|frames| == 1 || ReachesBack(frames[1..], t))
  }

  /** The frames after an append: a delayed start that has not expired frees the one frame it holds. */
  function Kept(r: Record, f: Frame): (fs: seq<Frame>)
    ensures 0 < |fs| <= |r.frames| + 1
  {
    if Rolling(r) then Unexpired(r.frames + [f], Cutoff(r, f))
    else if Delayed(r) && TooEarly(r, f) && |r.frames| == 1 then [f]
    else r.frames + [f]
  }

  /** How many of the oldest nodes an append frees. */
  function Freed(r: Record, f: Frame): nat {
    if r.recording == 0 then 0 else |r.frames| + 1 - |Kept(r, f)|
  }

  /** flistTime: the span of the list, truncated to `unsigned`. */
  function Time(frames: seq<Frame>): U32
    requires frames != []
  {
    ToU32(frames[|frames| - 1].pts - frames[0].pts)
  }

  /** The span of the list has reached the duration, if there is one. */
  predicate Reached(frames: seq<Frame>, duration: U32) {
    duration != 0 && frames != [] && Time(frames) >= duration
  }

  /** A delayed start that has expired becomes an ordinary recording. */
  function NextRecording(r: Record, f: Frame): int {
    if Delayed(r) && !TooEarly(r, f) then 1 else r.recording
  }

  /** A cursor at the front stays there; any other cursor stays at its node. */
  function Shift(cursor: int, n: nat): int {
    if cursor == 0 then 0 else cursor - n
  }

  function Append(r: Record, f: Frame): Record {
    if r.recording == 0 then r
    else
      Record(if Reached(Kept(r, f), r.duration) then 0 else NextRecording(r, f),
             Kept(r, f), Shift(r.cursor, Freed(r, f)), r.readIndex,
             NextT0(r, f), r.startShift, r.duration)
  }

  /** The cursor does not point into a node this append frees. */
  predicate CursorSafe(r: Record, f: Frame) {
    r.cursor == 0 || Freed(r, f) < r.cursor
  }

  // ----- reading -----

  function Seek(r: Record, n: nat): Record {
    if n >= |r.frames| then r else r.(cursor := n, readIndex := n)
  }

  /** The cursor n frames further on. */
  function Advanced(r: Record, n: nat): Record {
    r.(cursor := r.cursor + n, readIndex := r.readIndex + n)
  }

  predicate CursorInList(r: Record) {
    0 <= r.cursor <= |r.frames|
  }

  predicate AtEnd(r: Record) {
    r.cursor == |r.frames|
  }

  function Next(r: Record): Record
    requires CursorInList(r)
  {
    if AtEnd(r) then r else r.(cursor := r.cursor + 1, readIndex := r.readIndex + 1)
  }

  function NextFrame(r: Record): Option<Frame>
    requires CursorInList(r)
  {
    if AtEnd(r) then None else Some(r.frames[r.cursor])
  }

  /** Read everything that is left. */
  function Drain(r: Record): Record
    requires CursorInList(r)
  {
    r.(cursor := |r.frames|, readIndex := r.readIndex + |r.frames| - r.cursor)
  }

  function Verify(r: Record): Record
    requires CursorInList(r)
  {
    Seek(Drain(Seek(r, 0)), r.readIndex)
  }

  /** The cursor stands where the index says. */
  predicate CursorAgrees(r: Record) {
    r.cursor == r.readIndex <= |r.frames|
  }
}
