/** The read cursor over any interleaving of appending, seeking and reading. */
module FrameCursor {
  import opened Machine
  import opened FrameRecord
  import opened Seqs

  datatype Op = OpAppend(frame: Frame) | OpSeek(n: nat) | OpNext | OpVerify

  /**
   * Appending f frees a node: the front one has expired from the pre-roll window, or is the one held
   * for a delayed start that has not expired.
   */
  predicate Frees(r: Record, f: Frame) {
    r.recording != 0 &&
    if Rolling(r) then r.frames != [] && ToI64(r.frames[0].pts) < Cutoff(r, f)
    else Delayed(r) && TooEarly(r, f) && |r.frames| == 1
  }

  lemma FreesWhen(r: Record, f: Frame)
    ensures Freed(r, f) > 0 <==> Frees(r, f)
  {
    if Rolling(r) && r.frames != [] {
      assert (r.frames + [f])[0] == r.frames[0];
    }
  }

  /** Frames are freed only while the cursor is at the front of the list. */
  predicate FreesAtFront(r: Record, op: Op) {
    op.OpAppend? ==> r.cursor == 0 || !Frees(r, op.frame)
  }

  function Step(r: Record, op: Op): Record
    requires CursorInList(r)
  {
    match op
    case OpAppend(f) => Append(r, f)
    case OpSeek(n) => Seek(r, n)
    case OpNext => Next(r)
    case OpVerify => Verify(r)
  }

  /** Every operation of the run finds the cursor in the list and frees only at the front. */
  predicate Runs(r: Record, ops: seq<Op>)
    decreases ops
  {
    CursorInList(r) &&
    (ops == [] || (FreesAtFront(r, ops[0]) && Runs(Step(r, ops[0]), ops[1..])))
  }

  function Final(r: Record, ops: seq<Op>): Record
    requires Runs(r, ops)
    decreases ops
  {
    if ops == [] then r else Final(Step(r, ops[0]), ops[1..])
  }

  /** The frames the reads of the run return, in order. */
  function Delivered(r: Record, ops: seq<Op>): seq<Frame>
    requires Runs(r, ops)
    decreases ops
  {
    if ops == [] then []
    else
      (if ops[0].OpNext? && !AtEnd(r) then [r.frames[r.cursor]] else [])
      + Delivered(Step(r, ops[0]), ops[1..])
  }

  // ----- agreement of cursor and index -----

  /** Appending at the front or without freeing keeps the cursor where it was. */
  lemma AppendAtFront(r: Record, f: Frame)
    requires CursorInList(r) && FreesAtFront(r, OpAppend(f))
    ensures var s := Append(r, f);
      s.cursor == r.cursor && s.readIndex == r.readIndex && CursorInList(s)
  {
    FreesWhen(r, f);
  }

  /** An append that frees nothing only adds at the end. */
  lemma AppendFreesNothing(r: Record, f: Frame)
    requires !Frees(r, f)
    ensures r.frames <= Append(r, f).frames
  {
    FreesWhen(r, f);
    if Rolling(r) {
      UnexpiredWhole(r.frames + [f], Cutoff(r, f));
    }
  }

  lemma UnexpiredWhole(frames: seq<Frame>, t: int)
    requires |Unexpired(frames, t)| == |frames|
    ensures Unexpired(frames, t) == frames
  {
  }

  /**
   * The index stays right exactly when nothing is freed behind the cursor: an append that frees
   * nodes while the cursor is past the front moves the cursor, and m_readIndex does not follow.
   */
  lemma AgreementKept(r: Record, f: Frame)
    requires CursorAgrees(r)
    ensures CursorAgrees(Append(r, f)) <==> r.cursor == 0 || !Frees(r, f)
  {
    FreesWhen(r, f);
  }

  lemma RunsFour(r: Record, a: Op, b: Op, c: Op, d: Op)
    requires CursorInList(r) && FreesAtFront(r, a)
    requires CursorInList(Step(r, a)) && FreesAtFront(Step(r, a), b)
    requires CursorInList(Step(Step(r, a), b)) && FreesAtFront(Step(Step(r, a), b), c)
    requires CursorInList(Step(Step(Step(r, a), b), c)) && FreesAtFront(Step(Step(Step(r, a), b), c), d)
    requires CursorInList(Step(Step(Step(Step(r, a), b), c), d))
    ensures Runs(r, [a, b, c, d]) && Final(r, [a, b, c, d]) == Step(Step(Step(Step(r, a), b), c), d)
  {
    var r1, r2 := Step(r, a), Step(Step(r, a), b);
    var r3, r4 := Step(r2, c), Step(Step(r2, c), d);
    assert [d][1..] == [] && [c, d][1..] == [d] && [b, c, d][1..] == [c, d] && [a, b, c, d][1..] == [b, c, d];
    assert Runs(r4, []) && Final(r4, []) == r4;
    assert Runs(r3, [d]) && Final(r3, [d]) == r4;
    assert Runs(r2, [c, d]) && Final(r2, [c, d]) == r4;
    assert Runs(r1, [b, c, d]) && Final(r1, [b, c, d]) == r4;
  }

  function Stamped(pts: U64): Frame {
    Frame(pts, 0, 0, [])
  }

  /** A pre-roll of 100 microseconds with two frames, before and after they are read. */
  function PreRoll(cursor: nat): Record {
    Record(-1, [Stamped(0), Stamped(60)], cursor, cursor, 0, -100, 0)
  }

  lemma PreRollFills()
    ensures var r := Append(Init(-100, 0), Stamped(0));
      && !Frees(Init(-100, 0), Stamped(0)) && !Frees(r, Stamped(60))
      && CursorInList(r) && Append(r, Stamped(60)) == PreRoll(0)
  {
    var f, g, none: seq<Frame> := Stamped(0), Stamped(60), [];
    assert none + [f] == [f] && [f] + [g] == [f, g];
    assert Append(Init(-100, 0), f) == Record(-1, [f], 0, 0, 0, -100, 0);
  }

  lemma PreRollTrims()
    ensures Freed(PreRoll(2), Stamped(110)) == 1
  {
    var f, g, h := Stamped(0), Stamped(60), Stamped(110);
    assert [f, g] + [h] == [f, g, h] && [f, g, h][1..] == [g, h];
    assert Cutoff(PreRoll(2), h) == 10;
    assert Unexpired([g, h], 10) == [g, h];
    assert Unexpired([f, g, h], 10) == [g, h];
  }

  /** A run after which it does not: a pre-roll is read to its end, and the next append trims it. */
  lemma TrimBehindReader()
    ensures var ops := [OpAppend(Stamped(0)), OpAppend(Stamped(60)), OpNext, OpNext];
      && Runs(Init(-100, 0), ops) && Final(Init(-100, 0), ops) == PreRoll(2)
      && CursorAgrees(PreRoll(2)) && CursorSafe(PreRoll(2), Stamped(110))
      && !CursorAgrees(Append(PreRoll(2), Stamped(110)))
  {
    PreRollFills();
    assert Next(Next(PreRoll(0))) == PreRoll(2);
    RunsFour(Init(-100, 0), OpAppend(Stamped(0)), OpAppend(Stamped(60)), OpNext, OpNext);
    PreRollTrims();
    FreesWhen(PreRoll(2), Stamped(110));
    AgreementKept(PreRoll(2), Stamped(110));
  }

  /** Over a whole run the cursor stands at m_readIndex, and that is at most m_len. */
  lemma {:induction false} CursorRefinement(r: Record, ops: seq<Op>)
    requires CursorAgrees(r) && Runs(r, ops)
    ensures CursorAgrees(Final(r, ops))
    decreases ops
  {
    if ops != [] {
      if ops[0].OpAppend? {
        AgreementKept(r, ops[0].frame);
      }
      CursorRefinement(Step(r, ops[0]), ops[1..]);
    }
  }

  /**
   * Such runs never get stuck: from agreement, an operation that frees only at the front leaves the
   * cursor in the list.  (So Runs asks nothing of a caller beyond FreesAtFront.)
   */
  lemma StepStaysInList(r: Record, op: Op)
    requires CursorAgrees(r) && FreesAtFront(r, op)
    ensures CursorInList(Step(r, op)) && CursorAgrees(Step(r, op))
  {
    if op.OpAppend? {
      AgreementKept(r, op.frame);
    }
  }

  /** flistVerify puts the cursor back exactly when it agreed with the index (or there is no list). */
  lemma VerifyRestores(r: Record)
    requires CursorInList(r)
    ensures Verify(r) == r <==> r.cursor == r.readIndex || (r.frames == [] && r.cursor == 0)
  {
  }

  // ----- what the reader gets -----

  predicate NoSeek(ops: seq<Op>) {
    forall op :: op in ops ==> !op.OpSeek?
  }

  /** out is the part of frames that starts at index k. */
  predicate IsStretch(out: seq<Frame>, frames: seq<Frame>, k: int) {
    0 <= k && k + |out| <= |frames| && forall i :: 0 <= i < |out| ==> out[i] == frames[k + i]
  }

  lemma StretchBefore(x: Frame, out: seq<Frame>, frames: seq<Frame>, k: nat)
    requires IsStretch(out, frames, k + 1) && frames[k] == x
    ensures IsStretch([x] + out, frames, k)
  {
    forall i | 0 <= i < |out| + 1 ensures ([x] + out)[i] == frames[k + i] {
      if i > 0 {
        assert out[i - 1] == frames[k + 1 + (i - 1)];
      }
    }
  }

  /** Without a seek the cursor moves on by what is read, and what lies before it stays. */
  lemma StepReads(r: Record, op: Op)
    requires CursorAgrees(r) && FreesAtFront(r, op) && !op.OpSeek?
    ensures Step(r, op).cursor == r.cursor + (if op.OpNext? && !AtEnd(r) then 1 else 0)
    ensures r.cursor > 0 || op.OpNext? ==> r.frames <= Step(r, op).frames
  {
    match op
    case OpAppend(f) =>
      AppendAtFront(r, f);
      if r.cursor > 0 {
        AppendFreesNothing(r, f);
      }
    case OpVerify => VerifyRestores(r);
    case _ =>
  }

  lemma {:induction false} FramesStay(r: Record, ops: seq<Op>)
    requires CursorAgrees(r) && Runs(r, ops) && NoSeek(ops) && r.cursor > 0
    ensures r.frames <= Final(r, ops).frames
    decreases ops
  {
    if ops != [] {
      StepStaysInList(r, ops[0]);
      StepReads(r, ops[0]);
      LaterOps(ops);
      FramesStay(Step(r, ops[0]), ops[1..]);
    }
  }

  lemma LaterOps(ops: seq<Op>)
    requires ops != [] && NoSeek(ops)
    ensures NoSeek(ops[1..]) && !ops[0].OpSeek?
  {
    assert forall o :: o in ops[1..] ==> o in ops;
  }

  /**
   * Reading is lossless: whatever is appended meanwhile, also after the end was reached, the reads
   * return one stretch of the list that starts at the index where they began and ends at the
   * cursor.
   */
  lemma {:induction false} ReadsAreContiguous(r: Record, ops: seq<Op>)
    requires CursorAgrees(r) && Runs(r, ops) && NoSeek(ops)
    ensures var s, out := Final(r, ops), Delivered(r, ops);
      s.cursor == r.cursor + |out| && IsStretch(out, s.frames, r.cursor)
    decreases ops
  {
    if ops != [] {
      var next, rest := Step(r, ops[0]), ops[1..];
      StepStaysInList(r, ops[0]);
      StepReads(r, ops[0]);
      LaterOps(ops);
      ReadsAreContiguous(next, rest);
      if ops[0].OpNext? && !AtEnd(r) {
        FramesStay(next, rest);
        StretchBefore(r.frames[r.cursor], Delivered(next, rest), Final(next, rest).frames, r.cursor);
      } else {
        ConcatEmpty(Delivered(next, rest));
      }
    }
  }

  function Nexts(k: nat): seq<Op> {
    if k == 0 then [] else [OpNext] + Nexts(k - 1)
  }

  lemma {:induction false} ReadsOn(r: Record, k: nat)
    requires CursorAgrees(r) && r.cursor + k <= |r.frames|
    ensures Runs(r, Nexts(k)) && Delivered(r, Nexts(k)) == r.frames[r.cursor..r.cursor + k]
    decreases k
  {
    if k > 0 {
      assert Nexts(k)[1..] == Nexts(k - 1);
      ReadsOn(Next(r), k - 1);
      assert r.frames[r.cursor..r.cursor + k] == [r.frames[r.cursor]] + r.frames[r.cursor + 1..r.cursor + k];
    }
  }

  /** After a seek to n, from wherever the cursor was, reading gives the n-th frame and those after it. */
  lemma SeekThenReads(r: Record, n: nat, k: nat)
    requires CursorInList(r) && n < |r.frames| && n + k <= |r.frames|
    ensures Runs(r, [OpSeek(n)] + Nexts(k))
    ensures Delivered(r, [OpSeek(n)] + Nexts(k)) == r.frames[n..n + k]
  {
    var ops := [OpSeek(n)] + Nexts(k);
    assert ops[1..] == Nexts(k);
    ReadsOn(Seek(r, n), k);
    ConcatEmpty(Delivered(Seek(r, n), Nexts(k)));
  }

  lemma StretchToTheEnd(out: seq<Frame>, frames: seq<Frame>, k: nat)
    requires IsStretch(out, frames, k) && k + |out| == |frames|
    ensures out == frames[k..]
  {
  }

  /** A reader that has reached the end has seen every frame from where it began. */
  lemma ReadToTheEnd(r: Record, ops: seq<Op>)
    requires CursorAgrees(r) && Runs(r, ops) && NoSeek(ops) && AtEnd(Final(r, ops))
    ensures r.cursor <= |Final(r, ops).frames| && Delivered(r, ops) == Final(r, ops).frames[r.cursor..]
  {
    ReadsAreContiguous(r, ops);
    StretchToTheEnd(Delivered(r, ops), Final(r, ops).frames, r.cursor);
  }
}
