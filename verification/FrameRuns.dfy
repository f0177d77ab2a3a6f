/** What a recording holds after a whole history of appends, in each of its three modes. */
module FrameRuns {
  import opened Machine
  import opened FrameRecord

  /** Append the frames of fs in order. */
  function AppendAll(r: Record, fs: seq<Frame>): Record {
    if fs == [] then r else Append(AppendAll(r, fs[..|fs| - 1]), fs[|fs| - 1])
  }

  /** Time stamps never go back. */
  predicate Nondecreasing(fs: seq<Frame>) {
    |fs| <= 1 || (fs[0].pts <= fs[1].pts && Nondecreasing(fs[1..]))
  }

  lemma {:induction false} NondecreasingPush(fs: seq<Frame>, f: Frame)
    requires Nondecreasing(fs + [f])
    ensures Nondecreasing(fs)
    ensures fs != [] ==> fs[|fs| - 1].pts <= f.pts
  {
    if fs != [] {
      assert (fs + [f])[1..] == fs[1..] + [f];
      NondecreasingPush(fs[1..], f);
      if |fs| == 1 {
        assert (fs + [f])[1] == f;
      }
    }
  }

  lemma {:induction false} NondecreasingPrefix(fs: seq<Frame>, k: nat)
    requires Nondecreasing(fs) && k <= |fs|
    ensures Nondecreasing(fs[..k])
  {
    if k < |fs| {
      var n := |fs| - 1;
      assert fs[..n] + [fs[n]] == fs;
      NondecreasingPush(fs[..n], fs[n]);
      NondecreasingPrefix(fs[..n], k);
      assert fs[..n][..k] == fs[..k];
    } else {
      assert fs[..k] == fs;
    }
  }

  lemma {:induction false} LastTwo(fs: seq<Frame>)
    requires Nondecreasing(fs) && |fs| >= 2
    ensures fs[|fs| - 2].pts <= fs[|fs| - 1].pts
  {
    if |fs| > 2 {
      LastTwo(fs[1..]);
    }
  }

  lemma {:induction false} FirstIsLeast(fs: seq<Frame>, i: nat)
    requires Nondecreasing(fs) && i < |fs|
    ensures fs[0].pts <= fs[i].pts
  {
    if i > 0 {
      FirstIsLeast(fs[1..], i - 1);
    }
  }

  /** Time stamps that survive the conversion to int64_t. */
  predicate Signed(fs: seq<Frame>) {
    forall i :: 0 <= i < |fs| ==> fs[i].pts < 0x8000_0000_0000_0000
  }

  lemma {:induction false} AppendAllConcat(r: Record, fs: seq<Frame>, gs: seq<Frame>)
    ensures AppendAll(r, fs + gs) == AppendAll(AppendAll(r, fs), gs)
  {
    if gs == [] {
      assert fs + gs == fs;
    } else {
      var n := |gs| - 1;
      assert (fs + gs)[..|fs + gs| - 1] == fs + gs[..n];
      AppendAllConcat(r, fs, gs[..n]);
    }
  }

  lemma AppendAllSplit(r: Record, fs: seq<Frame>, k: nat)
    requires k <= |fs|
    ensures AppendAll(r, fs) == AppendAll(AppendAll(r, fs[..k]), fs[k..])
  {
    assert fs == fs[..k] + fs[k..];
    AppendAllConcat(r, fs[..k], fs[k..]);
  }

  lemma AppendAllFirst(r: Record, fs: seq<Frame>)
    requires fs != []
    ensures AppendAll(r, fs) == AppendAll(Append(r, fs[0]), fs[1..])
  {
    assert fs == [fs[0]] + fs[1..];
    AppendAllConcat(r, [fs[0]], fs[1..]);
    assert [fs[0]][..0] == [];
  }

  lemma {:induction false} SettingsFixed(r: Record, fs: seq<Frame>)
    ensures AppendAll(r, fs).startShift == r.startShift && AppendAll(r, fs).duration == r.duration
  {
    if fs != [] {
      SettingsFixed(r, fs[..|fs| - 1]);
    }
  }

  /** Once stopped, a record ignores every frame until it is started again. */
  lemma {:induction false} StoppedIgnores(r: Record, fs: seq<Frame>)
    requires r.recording == 0
    ensures AppendAll(r, fs) == r
  {
    if fs != [] {
      StoppedIgnores(r, fs[..|fs| - 1]);
    }
  }

  // ----- one append in each mode -----

  lemma RecordingStep(r: Record, f: Frame)
    requires r.recording == 1
    ensures var s := Append(r, f);
      && s.frames == r.frames + [f] && s.cursor == r.cursor && s.readIndex == r.readIndex
      && s.recording == (if Reached(r.frames + [f], r.duration) then 0 else 1)
  {
    assert Kept(r, f) == r.frames + [f];
  }

  lemma RollingStep(r: Record, f: Frame)
    requires Rolling(r)
    ensures var s := Append(r, f);
      var frames := Unexpired(r.frames + [f], Cutoff(r, f));
      && s.frames == frames && s.recording == (if Reached(frames, r.duration) then 0 else -1)
  {
  }

  lemma HoldingStep(r: Record, f: Frame)
    requires Delayed(r) && TooEarly(r, f) && |r.frames| <= 1
    ensures var s := Append(r, f);
      && s.frames == [f] && s.recording == -1 && s.t0 == NextT0(r, f)
  {
    assert Kept(r, f) == [f];
    assert Time([f]) == 0;
  }

  // ----- the pre-roll window -----

  /** The frames of fs that are not older than c, in order. */
  function Recent(fs: seq<Frame>, c: int): seq<Frame> {
    if fs == [] then []
    else if fs[0].pts >= c then [fs[0]] + Recent(fs[1..], c)
    else Recent(fs[1..], c)
  }

  /** The frames not older than the newest one by more than -startShift. */
  function Window(fs: seq<Frame>, startShift: int): seq<Frame>
    requires fs != []
  {
    Recent(fs, fs[|fs| - 1].pts + startShift)
  }

  lemma {:induction false} AllRecent(fs: seq<Frame>, c: int)
    requires Nondecreasing(fs) && (fs != [] ==> fs[0].pts >= c)
    ensures Recent(fs, c) == fs
  {
    if fs != [] {
      AllRecent(fs[1..], c);
    }
  }

  /** In a history in order of time the recent frames are a suffix. */
  lemma {:induction false} RecentIsSuffix(fs: seq<Frame>, c: int) returns (k: nat)
    requires Nondecreasing(fs)
    ensures k <= |fs| && Recent(fs, c) == fs[k..]
  {
    k := 0;
    if fs != [] {
      if fs[0].pts >= c {
        AllRecent(fs, c);
      } else {
        k := RecentIsSuffix(fs[1..], c);
        k := k + 1;
      }
    }
  }

  /** The oldest recent frame is recent, and not newer than the newest frame. */
  lemma {:induction false} OldestRecent(fs: seq<Frame>, c: int)
    requires Nondecreasing(fs) && fs != [] && fs[|fs| - 1].pts >= c
    ensures var w := Recent(fs, c);
      w != [] && c <= w[0].pts <= fs[|fs| - 1].pts && w[|w| - 1] == fs[|fs| - 1]
  {
    if fs[0].pts >= c {
      AllRecent(fs, c);
      FirstIsLeast(fs, |fs| - 1);
    } else {
      OldestRecent(fs[1..], c);
    }
  }

  /**
   * Trimming what was left of the window after one more frame leaves the new window: the loop frees
   * exactly the frames that are too old, because the one just appended never is.
   */
  lemma {:induction false} WindowStep(fs: seq<Frame>, c: int, f: Frame, t: int)
    requires c <= t <= f.pts && Nondecreasing(fs + [f]) && Signed(fs + [f])
    ensures Unexpired(Recent(fs, c) + [f], t) == Recent(fs + [f], t)
  {
    if fs == [] {
      assert [] + [f] == [f];
    } else {
      TailOfPush(fs, f);
      NondecreasingPush(fs, f);
      if fs[0].pts < t {
        WindowStep(fs[1..], c, f, t);
        if fs[0].pts >= c {
          UnexpiredSkips(fs[0], Recent(fs[1..], c), f, t);
        }
      } else {
        AllInWindow(fs, c, f, t);
      }
    }
  }

  lemma AllInWindow(fs: seq<Frame>, c: int, f: Frame, t: int)
    requires fs != [] && c <= t <= fs[0].pts < 0x8000_0000_0000_0000
    requires Nondecreasing(fs) && Nondecreasing(fs + [f])
    ensures Unexpired(Recent(fs, c) + [f], t) == Recent(fs + [f], t)
  {
    AllRecent(fs, c);
    AllRecent(fs + [f], t);
    assert (fs + [f])[0] == fs[0];
  }

  lemma TailOfPush(fs: seq<Frame>, f: Frame)
    requires fs != []
    ensures (fs + [f])[0] == fs[0] && (fs + [f])[1..] == fs[1..] + [f]
  {
  }

  lemma UnexpiredSkips(g: Frame, fs: seq<Frame>, f: Frame, t: int)
    requires g.pts < t && g.pts < 0x8000_0000_0000_0000
    ensures Unexpired([g] + fs + [f], t) == Unexpired(fs + [f], t)
  {
    assert ([g] + fs + [f])[1..] == fs + [f];
  }

  /** In the pre-roll a list never spans more than the window, so a longer duration is not reached. */
  predicate WindowNotCut(startShift: I32, duration: U32) {
    duration == 0 || duration + startShift > 0
  }

  lemma {:induction false} PreRollStep(r: Record, fs: seq<Frame>, f: Frame, c: int)
    requires Rolling(r) && WindowNotCut(r.startShift, r.duration)
    requires Nondecreasing(fs + [f]) && Signed(fs + [f])
    requires r.frames == Recent(fs, c) && c <= f.pts + r.startShift
    ensures var s := Append(r, f);
      s.frames == Window(fs + [f], r.startShift) && s.frames != [] && s.recording == -1
  {
    assert (fs + [f])[|fs|] == f && Cutoff(r, f) == f.pts + r.startShift;
    WindowStep(fs, c, f, f.pts + r.startShift);
    WindowIsShort(fs + [f], r.startShift);
    RollingOn(r, f, Window(fs + [f], r.startShift));
  }

  lemma RollingOn(r: Record, f: Frame, window: seq<Frame>)
    requires Rolling(r) && window == Unexpired(r.frames + [f], Cutoff(r, f)) && !Reached(window, r.duration)
    ensures Append(r, f).frames == window && Append(r, f).recording == -1
  {
    RollingStep(r, f);
  }

  /** The window holds the newest frame and is no longer than the shift. */
  lemma WindowIsShort(fs: seq<Frame>, startShift: I32)
    requires fs != [] && Nondecreasing(fs) && startShift < 0
    ensures var w := Window(fs, startShift);
      w != [] && Time(w) <= 0 - startShift
  {
    OldestRecent(fs, fs[|fs| - 1].pts + startShift);
    ShortSpan(Window(fs, startShift), 0 - startShift);
  }

  lemma ShortSpan(fs: seq<Frame>, span: int)
    requires fs != [] && fs[|fs| - 1].pts - fs[0].pts <= span < 0x1_0000_0000
    requires fs[0].pts <= fs[|fs| - 1].pts
    ensures Time(fs) <= span
  {
  }

  /**
   * Pre-roll refinement: however many frames have gone by, a list with a negative start shift holds
   * exactly the frames of the whole history that lie within the shift of the newest one.
   */
  lemma {:induction false} PreRollRefinement(startShift: I32, duration: U32, fs: seq<Frame>)
    requires startShift < 0 && WindowNotCut(startShift, duration)
    requires fs != [] && Nondecreasing(fs) && Signed(fs)
    ensures var r := AppendAll(Init(startShift, duration), fs);
      r.recording == -1 && r.frames == Window(fs, startShift) && r.frames != []
  {
    var n := |fs| - 1;
    var c := fs[if n > 0 then n - 1 else n].pts + startShift;
    NondecreasingPrefix(fs, n);
    SettingsFixed(Init(startShift, duration), fs[..n]);
    if n > 0 {
      PreRollRefinement(startShift, duration, fs[..n]);
      LastTwo(fs);
    }
    assert fs == fs[..n] + [fs[n]];
    PreRollStep(AppendAll(Init(startShift, duration), fs[..n]), fs[..n], fs[n], c);
  }

  /**
   * A duration not longer than the shift does cut the pre-roll short: it keeps buffering on every
   * history exactly when the duration is 0 or exceeds the shift.
   */
  lemma PreRollNeverStops(startShift: I32, duration: U32)
    requires startShift < 0
    ensures WindowNotCut(startShift, duration) <==>
      forall fs :: Nondecreasing(fs) && Signed(fs) ==> AppendAll(Init(startShift, duration), fs).recording == -1
  {
    if WindowNotCut(startShift, duration) {
      forall fs | Nondecreasing(fs) && Signed(fs)
        ensures AppendAll(Init(startShift, duration), fs).recording == -1
      {
        if fs != [] {
          PreRollRefinement(startShift, duration, fs);
        }
      }
    } else {
      PreRollStops(startShift, duration);
    }
  }

  lemma PreRollStops(startShift: I32, duration: U32)
    requires startShift < 0 && !WindowNotCut(startShift, duration)
    ensures exists fs :: Nondecreasing(fs) && Signed(fs) && AppendAll(Init(startShift, duration), fs).recording == 0
  {
    var f, g := Frame(0, 0, 0, []), Frame(duration, 0, 0, []);
    var r0 := Init(startShift, duration);
    AppendTwo(r0, f, g);
    assert [f, g][1..] == [g];
    TwoFramesStop(r0, f, g);
    assert Nondecreasing([f, g]) && Signed([f, g]);
  }

  lemma AppendTwo(r: Record, f: Frame, g: Frame)
    ensures AppendAll(r, [f, g]) == Append(Append(r, f), g)
  {
    assert [f, g][..1] == [f] && [f][..0] == [];
    assert AppendAll(r, [f]) == Append(r, f);
  }

  lemma TwoFramesStop(r: Record, f: Frame, g: Frame)
    requires Rolling(r) && r.frames == [] && f.pts == 0 && 0 < r.duration == g.pts && g.pts + r.startShift <= 0
    ensures Append(Append(r, f), g).recording == 0
  {
    RollingStep(r, f);
    assert [] + [f] == [f] && Time([f]) == 0;
    ReachesNow(Append(r, f), f, g);
  }

  lemma ReachesNow(r: Record, f: Frame, g: Frame)
    requires Rolling(r) && r.frames == [f] && f.pts == 0 && 0 < r.duration == g.pts && g.pts + r.startShift <= 0
    ensures Append(r, g).recording == 0
  {
    RollingStep(r, g);
    assert [f] + [g] == [f, g] && Time([f, g]) == r.duration;
  }

  lemma {:induction false} AllOlder(frames: seq<Frame>, t: int)
    ensures ReachesBack(frames, t) <==> frames != [] && forall f :: f in frames ==> ToI64(f.pts) < t
  {
    if frames != [] {
      assert frames == [frames[0]] + frames[1..];
      AllOlder(frames[1..], t);
    }
  }

  /**
   * The trimming loop reaches the node just appended exactly when every node before it is too old
   * and the shift carries its own time stamp across 2^63.
   */
  lemma BackReached(r: Record, f: Frame)
    requires Rolling(r)
    ensures ReachesBack(r.frames + [f], Cutoff(r, f)) <==>
      && (forall g :: g in r.frames ==> ToI64(g.pts) < Cutoff(r, f))
      && 0x8000_0000_0000_0000 <= f.pts < 0x8000_0000_0000_0000 - r.startShift
  {
    AllOlder(r.frames + [f], Cutoff(r, f));
    assert forall g :: g in r.frames + [f] <==> g in r.frames || g == f;
  }

  // ----- recording proper, and the duration -----

  /** What a recording that holds base holds after it is given gs. */
  function Taken(base: seq<Frame>, gs: seq<Frame>, duration: U32): seq<Frame>
    decreases gs
  {
    if gs == [] then base
    else
      var more := base + [gs[0]];
      if Reached(more, duration) then more else Taken(more, gs[1..], duration)
  }

  /** One of gs makes the recording reach its duration. */
  predicate Stops(base: seq<Frame>, gs: seq<Frame>, duration: U32)
    decreases gs
  {
    gs != [] && var more := base + [gs[0]]; (Reached(more, duration) || Stops(more, gs[1..], duration))
  }

  /** The frames taken are the shortest prefix that reaches the duration, or all of them if none does. */
  lemma {:induction false} TakenIsShortest(base: seq<Frame>, gs: seq<Frame>, duration: U32) returns (m: nat)
    ensures m <= |gs| && Taken(base, gs, duration) == base + gs[..m]
    ensures forall j :: 1 <= j < m ==> !Reached(base + gs[..j], duration)
    ensures if Stops(base, gs, duration) then m > 0 && Reached(base + gs[..m], duration)
            else m == |gs| && (m > 0 ==> !Reached(base + gs[..m], duration))
    decreases gs
  {
    if gs == [] {
      m := 0;
      assert base + gs[..0] == base;
    } else {
      var more := base + [gs[0]];
      assert base + gs[..1] == more;
      if Reached(more, duration) {
        m := 1;
      } else {
        var k := TakenIsShortest(more, gs[1..], duration);
        m := k + 1;
        OneOn(base, gs, m);
        forall j | 1 <= j < m ensures !Reached(base + gs[..j], duration) {
          if j > 1 {
            OneOn(base, gs, j);
          }
        }
      }
    }
  }

  lemma OneOn(base: seq<Frame>, gs: seq<Frame>, j: nat)
    requires 1 <= j <= |gs|
    ensures base + gs[..j] == base + [gs[0]] + gs[1..][..j - 1]
  {
  }

  /**
   * A recording takes frames up to and including the first that makes its span reach the duration,
   * then stops; without a duration it takes them all.
   */
  lemma {:induction false} RecordingRun(r: Record, gs: seq<Frame>)
    requires r.recording == 1
    ensures var s := AppendAll(r, gs);
      && s.frames == Taken(r.frames, gs, r.duration)
      && s.recording == (if Stops(r.frames, gs, r.duration) then 0 else 1)
      && s.cursor == r.cursor && s.readIndex == r.readIndex
    decreases gs
  {
    if gs != [] {
      RecordingStep(r, gs[0]);
      AppendAllFirst(r, gs);
      var s := Append(r, gs[0]);
      if s.recording == 0 {
        StoppedIgnores(s, gs[1..]);
      } else {
        RecordingRun(s, gs[1..]);
      }
    }
  }

  /** With no start shift the list is the history, cut by the duration. */
  lemma ImmediateRun(duration: U32, fs: seq<Frame>)
    ensures var r := AppendAll(Init(0, duration), fs);
      && r.frames == Taken([], fs, duration)
      && r.recording == (if Stops([], fs, duration) then 0 else 1)
  {
    RecordingRun(Init(0, duration), fs);
  }

  /** Starting after a pre-roll keeps the window and goes on from there. */
  lemma PreRollThenRecord(startShift: I32, duration: U32, fs: seq<Frame>, gs: seq<Frame>)
    requires startShift < 0 && WindowNotCut(startShift, duration)
    requires fs != [] && Nondecreasing(fs) && Signed(fs)
    ensures var w := Window(fs, startShift);
      AppendAll(AppendAll(Init(startShift, duration), fs).(recording := 1), gs).frames
      == Taken(w, gs, duration)
  {
    PreRollRefinement(startShift, duration, fs);
    SettingsFixed(Init(startShift, duration), fs);
    RecordingRun(AppendAll(Init(startShift, duration), fs).(recording := 1), gs);
  }
}
