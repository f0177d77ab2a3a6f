/** What flistAppend answers over whole runs: it reports the one frame that stops the list. */
module FrameCodes {
  import opened Machine
  import opened FrameRecord
  import opened FrameRuns

  function Code(r: Record, f: Frame): int {
    if r.recording != 0 && Append(r, f).recording == 0 then -1 else 0
  }

  /** The answers to appending the frames one after the other. */
  function Codes(r: Record, fs: seq<Frame>): (codes: seq<int>)
    ensures |codes| == |fs|
    decreases fs
  {
    if fs == [] then [] else [Code(r, fs[0])] + Codes(Append(r, fs[0]), fs[1..])
  }

  predicate AllZero(codes: seq<int>) {
    forall k :: 0 <= k < |codes| ==> codes[k] == 0
  }

  /** All answers are 0 but the one to the m-th frame. */
  predicate OneAt(codes: seq<int>, m: nat) {
    1 <= m <= |codes| && forall k :: 0 <= k < |codes| ==> codes[k] == if k == m - 1 then -1 else 0
  }

  /** A stopped list accepts, and ignores, every frame. */
  lemma {:induction false} StoppedCodes(r: Record, fs: seq<Frame>)
    requires r.recording == 0
    ensures AllZero(Codes(r, fs))
    decreases fs
  {
    if fs != [] {
      StoppedCodes(Append(r, fs[0]), fs[1..]);
    }
  }

  /** flistTime reaches the duration at the m-th frame, and at none before. */
  predicate FirstReached(base: seq<Frame>, gs: seq<Frame>, duration: U32, m: nat)
  {
    && 1 <= m <= |gs| && Reached(base + gs[..m], duration)
    && forall j :: 1 <= j < m ==> !Reached(base + gs[..j], duration)
  }

  predicate NeverReached(base: seq<Frame>, gs: seq<Frame>, duration: U32) {
    forall j :: 1 <= j <= |gs| ==> !Reached(base + gs[..j], duration)
  }

  /** What a recording answers: m is the frame that stops it, or 0 when none does. */
  predicate Answers(base: seq<Frame>, gs: seq<Frame>, duration: U32, codes: seq<int>, m: nat) {
    if m == 0 then AllZero(codes) && NeverReached(base, gs, duration)
    else FirstReached(base, gs, duration, m) && OneAt(codes, m)
  }

  /** One frame that does not reach the duration, before the others. */
  lemma AnswersLater(base: seq<Frame>, gs: seq<Frame>, duration: U32, codes: seq<int>, m: nat)
    requires gs != [] && !Reached(base + [gs[0]], duration)
    requires Answers(base + [gs[0]], gs[1..], duration, codes, m)
    ensures Answers(base, gs, duration, [0] + codes, if m == 0 then 0 else m + 1)
  {
    var last := if m == 0 then |gs| else m + 1;
    forall j | 1 <= j <= last
      ensures Reached(base + gs[..j], duration) == (j > 1 && Reached(base + [gs[0]] + gs[1..][..j - 1], duration))
    {
      OneOn(base, gs, j);
      assert gs[1..][..0] == [] && base + [gs[0]] + [] == base + [gs[0]];
    }
  }

  /**
   * A recording answers -1 to the first frame at which flistTime reaches the duration, and 0 to
   * every other one, before it and after it.
   */
  lemma {:induction false} RecordingCodes(r: Record, gs: seq<Frame>) returns (m: nat)
    requires r.recording == 1
    ensures Answers(r.frames, gs, r.duration, Codes(r, gs), m)
    decreases gs
  {
    m := 0;
    if gs != [] {
      var s := Append(r, gs[0]);
      RecordingStep(r, gs[0]);
      if s.recording == 0 {
        assert gs[..1] == [gs[0]];
        StoppedCodes(s, gs[1..]);
        m := 1;
      } else {
        m := RecordingCodes(s, gs[1..]);
        AnswersLater(r.frames, gs, r.duration, Codes(s, gs[1..]), m);
        m := if m == 0 then 0 else m + 1;
      }
    }
  }

  /** The answer to frame k, by the states before and after it. */
  lemma {:induction false} CodeAt(r: Record, fs: seq<Frame>, k: nat)
    requires k < |fs|
    ensures Codes(r, fs)[k] == Code(AppendAll(r, fs[..k]), fs[k])
    decreases fs
  {
    if k > 0 {
      CodeAt(Append(r, fs[0]), fs[1..], k - 1);
      AppendAllFirst(r, fs[..k]);
      assert fs[..k][1..] == fs[1..][..k - 1];
    }
  }

  /** Whatever the mode, at most one frame is reported before the list is started again. */
  lemma {:induction false} CodesOnce(r: Record, fs: seq<Frame>, j: nat, k: nat)
    requires j < k < |fs| && Codes(r, fs)[j] == -1
    ensures Codes(r, fs)[k] == 0
    decreases fs
  {
    if j == 0 {
      StoppedCodes(Append(r, fs[0]), fs[1..]);
    } else {
      CodesOnce(Append(r, fs[0]), fs[1..], j - 1, k - 1);
    }
  }

  lemma {:induction false} AppendAllNext(r: Record, fs: seq<Frame>, k: nat)
    requires k < |fs|
    ensures AppendAll(r, fs[..k + 1]) == Append(AppendAll(r, fs[..k]), fs[k])
  {
    assert fs[..k + 1][..k] == fs[..k];
  }

  /** A pre-roll that goes on answers 0 to every frame. */
  lemma {:induction false} PreRollCodes(startShift: I32, duration: U32, fs: seq<Frame>, k: nat)
    requires startShift < 0 && WindowNotCut(startShift, duration)
    requires k < |fs| && Nondecreasing(fs) && Signed(fs)
    ensures Codes(Init(startShift, duration), fs)[k] == 0
  {
    CodeAt(Init(startShift, duration), fs, k);
    NondecreasingPrefix(fs, k + 1);
    PreRollRefinement(startShift, duration, fs[..k + 1]);
    AppendAllNext(Init(startShift, duration), fs, k);
  }
}
