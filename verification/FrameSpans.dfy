/**
 * The duration of a recording in real time.  flistTime reduces the span of the list modulo 2^32;
 * here runs are compared with the span itself.
 */
module FrameSpans {
  import opened Machine
  import opened FrameRecord
  import opened FrameRuns
  import opened FrameDelays

  function Span(frames: seq<Frame>): int
    requires frames != []
  {
    frames[|frames| - 1].pts - frames[0].pts
  }

  predicate SpanReached(frames: seq<Frame>, duration: U32) {
    duration != 0 && frames != [] && Span(frames) >= duration
  }

  /** The m-th frame of gs is the first with which the span of the list reaches the duration. */
  predicate FirstReach(base: seq<Frame>, gs: seq<Frame>, duration: U32, m: nat) {
    && 1 <= m <= |gs| && SpanReached(base + gs[..m], duration)
    && forall j :: 1 <= j < m ==> !SpanReached(base + gs[..j], duration)
  }

  predicate NeverReach(base: seq<Frame>, gs: seq<Frame>, duration: U32) {
    forall j :: 1 <= j <= |gs| ==> !SpanReached(base + gs[..j], duration)
  }

  /** Either the duration is reached by some first frame, or it never is. */
  lemma {:induction false} ReachOrNever(base: seq<Frame>, gs: seq<Frame>, duration: U32, n: nat) returns (m: nat)
    requires n <= |gs|
    ensures if 1 <= m <= n then FirstReach(base, gs, duration, m)
      else m == 0 && forall j :: 1 <= j <= n ==> !SpanReached(base + gs[..j], duration)
  {
    if n == 0 {
      m := 0;
    } else {
      m := ReachOrNever(base, gs, duration, n - 1);
      if m == 0 && SpanReached(base + gs[..n], duration) {
        m := n;
      }
    }
  }

  /** The truncation to `unsigned` in flistTime is harmless up to 2^32 - 1 microseconds. */
  lemma TimeIsSpan(frames: seq<Frame>)
    requires frames != []
    ensures Time(frames) == Span(frames) <==> 0 <= Span(frames) < 0x1_0000_0000
    ensures Span(frames) >= 0 ==> Time(frames) <= Span(frames)
  {
  }

  lemma LastIsGreatest(fs: seq<Frame>)
    requires fs != [] && Nondecreasing(fs)
    ensures Span(fs) >= 0
  {
    FirstIsLeast(fs, |fs| - 1);
  }

  /** The list reports the duration only when its span has reached it. */
  lemma ReachedSpans(base: seq<Frame>, gs: seq<Frame>, duration: U32, j: nat)
    requires 1 <= j <= |gs| && Nondecreasing(base + gs) && Reached(base + gs[..j], duration)
    ensures SpanReached(base + gs[..j], duration)
  {
    PrefixOf(base, gs, j);
    LastIsGreatest(base + gs[..j]);
    TimeIsSpan(base + gs[..j]);
  }

  lemma PrefixOf(base: seq<Frame>, gs: seq<Frame>, j: nat)
    requires j <= |gs| && Nondecreasing(base + gs)
    ensures Nondecreasing(base + gs[..j])
  {
    NondecreasingPrefix(base + gs, |base| + j);
    assert (base + gs)[..|base| + j] == base + gs[..j];
  }

  /**
   * What is taken, against the span: it is the frames up to the first with which the span reaches
   * the duration exactly when flistTime shows it at that frame.
   */
  lemma TakenBySpan(base: seq<Frame>, gs: seq<Frame>, duration: U32, m: nat)
    requires Nondecreasing(base + gs) && FirstReach(base, gs, duration, m)
    ensures Stops(base, gs, duration) && Taken(base, gs, duration) == base + gs[..m] <==>
      ToU32(Span(base + gs[..m])) >= duration
  {
    var k := TakenIsShortest(base, gs, duration);
    if Stops(base, gs, duration) {
      ReachedSpans(base, gs, duration, k);
      if k == m {
        assert Reached(base + gs[..m], duration);
      } else {
        assert |base + gs[..k]| != |base + gs[..m]|;
      }
    } else if m < k {
      assert !Reached(base + gs[..m], duration);
    }
  }

  /**
   * In particular whenever that frame comes less than 2^32 microseconds after the first one.
   */
  lemma ShortSpansAreSeen(base: seq<Frame>, gs: seq<Frame>, duration: U32, m: nat)
    requires Nondecreasing(base + gs) && FirstReach(base, gs, duration, m)
    requires Span(base + gs[..m]) < 0x1_0000_0000
    ensures Stops(base, gs, duration) && Taken(base, gs, duration) == base + gs[..m]
  {
    PrefixOf(base, gs, m);
    LastIsGreatest(base + gs[..m]);
    TimeIsSpan(base + gs[..m]);
    TakenBySpan(base, gs, duration, m);
  }

  lemma NothingReached(base: seq<Frame>, gs: seq<Frame>, duration: U32)
    requires Nondecreasing(base + gs) && NeverReach(base, gs, duration)
    ensures !Stops(base, gs, duration) && Taken(base, gs, duration) == base + gs
  {
    var k := TakenIsShortest(base, gs, duration);
    if Stops(base, gs, duration) {
      ReachedSpans(base, gs, duration, k);
    } else {
      assert gs[..k] == gs;
    }
  }

  /**
   * A recording stops at the first frame with which its span reaches the duration, and holds the
   * frames up to it, exactly when that span modulo 2^32 is not less than the duration; it goes on
   * if the span never reaches it.
   */
  lemma RecordingSpans(r: Record, gs: seq<Frame>) returns (m: nat)
    requires r.recording == 1 && Nondecreasing(r.frames + gs)
    ensures var s := AppendAll(r, gs);
      if m == 0 then NeverReach(r.frames, gs, r.duration) && s.recording == 1 && s.frames == r.frames + gs
      else
        && FirstReach(r.frames, gs, r.duration, m)
        && (s.recording == 0 && s.frames == r.frames + gs[..m] <==>
            ToU32(Span(r.frames + gs[..m])) >= r.duration)
  {
    m := ReachOrNever(r.frames, gs, r.duration, |gs|);
    RecordingRun(r, gs);
    if m == 0 {
      NothingReached(r.frames, gs, r.duration);
    } else {
      TakenBySpan(r.frames, gs, r.duration, m);
    }
  }

  /** The same of a delayed start: the list begins with the frame held, the last before the expiry. */
  lemma DelayedSpans(startShift: I32, duration: U32, fs: seq<Frame>) returns (m: nat)
    requires startShift > 0 && Nondecreasing(fs) && StartFits(fs) && FirstRipe(fs, startShift) < |fs|
    ensures FirstRipe(fs, startShift) > 0
    ensures var k, r := FirstRipe(fs, startShift), AppendAll(Init(startShift, duration), fs);
      var held, rest := [fs[k - 1]], fs[k..];
      if m == 0 then NeverReach(held, rest, duration) && r.recording == 1 && r.frames == held + rest
      else
        && FirstReach(held, rest, duration, m)
        && (r.recording == 0 && r.frames == held + rest[..m] <==> ToU32(Span(held + rest[..m])) >= duration)
  {
    var k := FirstRipe(fs, startShift);
    DelayedRun(startShift, duration, fs);
    var held, rest := [fs[k - 1]], fs[k..];
    NondecreasingSuffix(fs, k - 1);
    assert fs[k - 1..] == held + rest;
    m := ReachOrNever(held, rest, duration, |rest|);
    if m == 0 {
      NothingReached(held, rest, duration);
    } else {
      TakenBySpan(held, rest, duration, m);
    }
  }

  lemma {:induction false} NondecreasingSuffix(fs: seq<Frame>, k: nat)
    requires Nondecreasing(fs) && k <= |fs|
    ensures Nondecreasing(fs[k..])
  {
    if k > 0 {
      NondecreasingSuffix(fs[1..], k - 1);
      assert fs[1..][k - 1..] == fs[k..];
    }
  }

  // ----- a duration that is missed -----

  function Still(pts: U64): Frame {
    Frame(pts, 0, 0, [])
  }

  /** Two frames, 2^32 microseconds apart. */
  function Gap(): seq<Frame> {
    [Still(0), Still(0x1_0000_0000)]
  }

  lemma GapReaches(duration: U32)
    requires duration != 0
    ensures Nondecreasing(Gap()) && FirstReach([], Gap(), duration, 2)
  {
    var none: seq<Frame> := [];
    assert none + Gap()[..1] == [Still(0)] && none + Gap()[..2] == Gap();
    assert Gap()[1..] == [Still(0x1_0000_0000)];
  }

  lemma GapRecorded(duration: U32)
    requires duration != 0
    ensures AppendAll(Init(0, duration), Gap()).recording == 1
  {
    var r := Init(0, duration);
    AppendTwo(r, Still(0), Still(0x1_0000_0000));
    RecordingStep(r, Still(0));
    assert r.frames + [Still(0)] == [Still(0)];
    RecordingStep(Append(r, Still(0)), Still(0x1_0000_0000));
    assert [Still(0)] + [Still(0x1_0000_0000)] == Gap();
  }

  /** A gap of 2^32 microseconds hides the duration: the recording goes on. */
  lemma SpanMissed(duration: U32)
    requires duration != 0
    ensures Nondecreasing(Gap()) && FirstReach([], Gap(), duration, 2)
    ensures AppendAll(Init(0, duration), Gap()).recording == 1
  {
    GapReaches(duration);
    GapRecorded(duration);
  }
}
