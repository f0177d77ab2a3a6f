/** The delayed start over whole runs, and when it keeps what it promises. */
module FrameDelays {
  import opened Machine
  import opened FrameRecord
  import opened FrameRuns

  /** The index of the first frame that is startShift after the first one, or the length. */
  function FirstRipe(fs: seq<Frame>, startShift: int): (k: nat)
    ensures k <= |fs|
  {
    if fs == [] then 0
    else
      var n := |fs| - 1;
      var k := FirstRipe(fs[..n], startShift);
      if k < n || fs[n].pts - fs[0].pts >= startShift then k else n + 1
  }

  lemma {:induction false} FirstRipeIsFirst(fs: seq<Frame>, startShift: int)
    ensures var k := FirstRipe(fs, startShift);
      && (forall i :: 0 <= i < k ==> fs[i].pts - fs[0].pts < startShift)
      && (k < |fs| ==> fs[k].pts - fs[0].pts >= startShift)
      && FirstRipe(fs[..k], startShift) == k
  {
    if fs != [] {
      var n := |fs| - 1;
      var k := FirstRipe(fs, startShift);
      FirstRipeIsFirst(fs[..n], startShift);
      if k <= n {
        assert fs[..n][..k] == fs[..k];
      } else {
        assert fs[..k] == fs;
      }
    }
  }

  /** The first time stamp fits `int`, so m_t0 is that time stamp. */
  predicate StartFits(fs: seq<Frame>) {
    fs != [] ==> fs[0].pts < 0x8000_0000
  }

  /** What one more frame before the expiry means. */
  lemma StillEarly(fs: seq<Frame>, startShift: int)
    requires Nondecreasing(fs) && fs != [] && FirstRipe(fs, startShift) == |fs|
    ensures var n := |fs| - 1;
      && Nondecreasing(fs[..n]) && FirstRipe(fs[..n], startShift) == n
      && 0 <= fs[n].pts - fs[0].pts < (if n > 0 then startShift else 1)
  {
    var n := |fs| - 1;
    assert fs[..n] + [fs[n]] == fs;
    NondecreasingPush(fs[..n], fs[n]);
    FirstIsLeast(fs, n);
  }

  lemma HoldsNext(r: Record, first: int, f: Frame)
    requires Delayed(r) && |r.frames| <= 1 && 0 <= first < 0x8000_0000
    requires r.t0 == first || (r.t0 < 0 && f.pts == first)
    requires 0 <= f.pts - first < r.startShift
    ensures var s := Append(r, f); s.frames == [f] && s.recording == -1 && s.t0 == first
  {
    assert NextT0(r, f) == first;
    HoldingStep(r, f);
  }

  /** Until the shift has passed the list holds the newest frame and nothing else. */
  lemma {:induction false} DelayedHolds(startShift: I32, duration: U32, fs: seq<Frame>)
    requires startShift > 0 && Nondecreasing(fs) && StartFits(fs)
    requires fs != [] && FirstRipe(fs, startShift) == |fs|
    ensures var r := AppendAll(Init(startShift, duration), fs);
      r.recording == -1 && r.t0 == fs[0].pts && r.frames == [fs[|fs| - 1]]
  {
    var n := |fs| - 1;
    SettingsFixed(Init(startShift, duration), fs[..n]);
    StillEarly(fs, startShift);
    if n > 0 {
      DelayedHolds(startShift, duration, fs[..n]);
    }
    HoldsNext(AppendAll(Init(startShift, duration), fs[..n]), fs[0].pts, fs[n]);
  }

  /** Once the shift has passed, the frame held is the first of the recording. */
  lemma {:induction false} DelayedExpires(startShift: I32, duration: U32, held: seq<Frame>, rest: seq<Frame>)
    requires startShift > 0 && Nondecreasing(held) && StartFits(held)
    requires held != [] && FirstRipe(held, startShift) == |held|
    requires rest != [] && rest[0].pts - held[0].pts >= startShift
    ensures var r := AppendAll(AppendAll(Init(startShift, duration), held), rest);
      var h := [held[|held| - 1]];
      && r.frames == Taken(h, rest, duration)
      && r.recording == (if Stops(h, rest, duration) then 0 else 1)
  {
    var r0 := Init(startShift, duration);
    DelayedHolds(startShift, duration, held);
    SettingsFixed(r0, held);
    ExpiredRun(AppendAll(r0, held), rest);
  }

  /** The append that ends a delayed start, and all after it, act as on an ordinary recording. */
  lemma ExpiredRun(r: Record, gs: seq<Frame>)
    requires Delayed(r) && gs != [] && !TooEarly(r, gs[0])
    ensures var s := AppendAll(r, gs);
      && s.frames == Taken(r.frames, gs, r.duration)
      && s.recording == (if Stops(r.frames, gs, r.duration) then 0 else 1)
  {
    var started := r.(recording := 1);
    RecordingStep(started, gs[0]);
    assert Append(r, gs[0]) == Append(started, gs[0]);
    AppendAllFirst(r, gs);
    AppendAllFirst(started, gs);
    RecordingRun(started, gs);
  }

  /**
   * What a delayed start promises: the list holds one frame until the shift has passed since the
   * first one; from then on it holds the last frame before that and every later frame, cut by the
   * duration.
   */
  predicate AsPromised(startShift: I32, duration: U32, fs: seq<Frame>) {
    var r := AppendAll(Init(startShift, duration), fs);
    var k := FirstRipe(fs, startShift);
    if k == |fs| then r.recording == -1 && r.frames == (if k == 0 then [] else [fs[k - 1]])
    else
      && k > 0
      && r.frames == Taken([fs[k - 1]], fs[k..], duration)
      && r.recording == (if Stops([fs[k - 1]], fs[k..], duration) then 0 else 1)
  }

  lemma DelayedRun(startShift: I32, duration: U32, fs: seq<Frame>)
    requires startShift > 0 && Nondecreasing(fs) && StartFits(fs)
    ensures AsPromised(startShift, duration, fs)
  {
    var k := FirstRipe(fs, startShift);
    if k < |fs| {
      DelayEnds(startShift, duration, fs);
    } else if k > 0 {
      DelayedHolds(startShift, duration, fs);
    }
  }

  lemma {:induction false} DelayEnds(startShift: I32, duration: U32, fs: seq<Frame>)
    requires startShift > 0 && Nondecreasing(fs) && StartFits(fs) && FirstRipe(fs, startShift) < |fs|
    ensures AsPromised(startShift, duration, fs)
  {
    var k := FirstRipe(fs, startShift);
    var held, rest := fs[..k], fs[k..];
    FirstRipeIsFirst(fs, startShift);
    NondecreasingPrefix(fs, k);
    AppendAllSplit(Init(startShift, duration), fs, k);
    assert k > 0 && held[0] == fs[0] && held[|held| - 1] == fs[k - 1] && rest[0] == fs[k];
    DelayedExpires(startShift, duration, held, rest);
  }

  // ----- when the promise is kept -----

  /** What truncation to `int` takes away is a multiple of 2^32. */
  lemma TruncationGap(x: U64)
    ensures ToU64(x - ToI32(x)) == 0 <==> x < 0x8000_0000 || x >= 0xFFFF_FFFF_8000_0000
    ensures ToU64(x - ToI32(x)) == 0 || ToU64(x - ToI32(x)) >= 0x1_0000_0000
  {
    var q := (x - ToI32(x)) / 0x1_0000_0000;
    assert x - ToI32(x) == q * 0x1_0000_0000;
    assert 0 <= q <= 0x1_0000_0000;
  }

  /** m_t0 loses its high bits, and the first frame starts the recording at once. */
  lemma StartsAtOnce(startShift: I32, duration: U32, f: Frame)
    requires startShift > 0 && 0x8000_0000 <= f.pts < 0xFFFF_FFFF_8000_0000
    ensures !TooEarly(Init(startShift, duration), f) && AppendAll(Init(startShift, duration), [f]).recording != -1
  {
    TruncationGap(f.pts);
    assert [f][..0] == [];
  }

  /** Then the start shift has no effect on the whole run. */
  lemma DelayIgnored(startShift: I32, duration: U32, fs: seq<Frame>)
    requires startShift > 0 && fs != [] && 0x8000_0000 <= fs[0].pts < 0xFFFF_FFFF_8000_0000
    ensures var r, i := AppendAll(Init(startShift, duration), fs), AppendAll(Init(0, duration), fs);
      r.frames == i.frames && r.recording == i.recording
  {
    StartsAtOnce(startShift, duration, fs[0]);
    ExpiredRun(Init(startShift, duration), fs);
    ImmediateRun(duration, fs);
  }

  lemma NeverRipeStep(r: Record, f: Frame)
    requires Delayed(r) && r.t0 < 0 && |r.frames| <= 1 && f.pts >= 0xFFFF_FFFF_8000_0000
    ensures var s := Append(r, f); s.frames == [f] && s.recording == -1 && s.t0 < 0
  {
    assert NextT0(r, f) == f.pts - 0x1_0000_0000_0000_0000;
    HoldingStep(r, f);
  }

  /**
   * A first time stamp within 2^31 of 2^64 makes m_t0 negative, so it is set again at every frame
   * and the delay never expires.
   */
  lemma {:induction false} DelayNeverExpires(startShift: I32, duration: U32, fs: seq<Frame>)
    requires startShift > 0 && fs != [] && Nondecreasing(fs) && fs[0].pts >= 0xFFFF_FFFF_8000_0000
    ensures var r := AppendAll(Init(startShift, duration), fs);
      r.recording == -1 && r.t0 < 0 && r.frames == [fs[|fs| - 1]]
  {
    var n := |fs| - 1;
    SettingsFixed(Init(startShift, duration), fs[..n]);
    NondecreasingPrefix(fs, n);
    FirstIsLeast(fs, n);
    if n > 0 {
      DelayNeverExpires(startShift, duration, fs[..n]);
    }
    NeverRipeStep(AppendAll(Init(startShift, duration), fs[..n]), fs[n]);
  }

  /** Some run that begins with this frame breaks the promise. */
  lemma PromiseBroken(startShift: I32, duration: U32, first: Frame) returns (fs: seq<Frame>)
    requires startShift > 0 && first.pts >= 0x8000_0000 && first.pts + startShift < 0x1_0000_0000_0000_0000
    ensures fs != [] && fs[0] == first && Nondecreasing(fs) && !AsPromised(startShift, duration, fs)
  {
    if first.pts < 0xFFFF_FFFF_8000_0000 {
      fs := [first];
      StartsAtOnce(startShift, duration, first);
      FirstRipeIsFirst(fs, startShift);
    } else {
      var later := first.(pts := first.pts + startShift);
      fs := [first, later];
      assert fs[1..] == [later];
      FirstRipeIsFirst(fs, startShift);
      DelayNeverExpires(startShift, duration, fs);
    }
  }

  /**
   * Every history that begins with a frame is delayed as promised exactly when its time stamp is
   * below 2^31, or so near to 2^64 that no time stamp can reach the shift.
   */
  lemma DelayHonoured(startShift: I32, duration: U32, first: Frame)
    requires startShift > 0
    ensures (forall fs :: fs != [] && fs[0] == first && Nondecreasing(fs) ==> AsPromised(startShift, duration, fs)) <==>
      first.pts < 0x8000_0000 || first.pts + startShift >= 0x1_0000_0000_0000_0000
  {
    if first.pts < 0x8000_0000 || first.pts + startShift >= 0x1_0000_0000_0000_0000 {
      forall fs | fs != [] && fs[0] == first && Nondecreasing(fs) ensures AsPromised(startShift, duration, fs) {
        if first.pts < 0x8000_0000 {
          DelayedRun(startShift, duration, fs);
        } else {
          DelayNeverExpires(startShift, duration, fs);
          FirstRipeIsFirst(fs, startShift);
        }
      }
    } else {
      var fs := PromiseBroken(startShift, duration, first);
    }
  }
}
