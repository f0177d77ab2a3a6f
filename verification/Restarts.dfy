/** Stopping and starting the camera while buffers are still on their way back. */
module Restarts {
  import opened RequestLoop

  lemma HeldWarns(s: Loop, b: BufferMap)
    requires s.free == [] && b in s.held
    ensures Runs(s, [Take(b)]) && !NoWarning(s, [Take(b)])
  {
    assert [Take(b)][1..] == [];
  }

  lemma TransitWarns(s: Loop, b: BufferMap)
    requires s.free == [] && s.messages == [] && b in s.transit
    ensures var es := [Post(b), Wait, Take(b)]; Runs(s, es) && !NoWarning(s, es)
  {
    var s1 := Step(s, Post(b));
    assert [] + [b] == [b] && s1.messages == [b];
    HeldWarns(Step(s1, Wait), b);
    assert [Wait, Take(b)][1..] == [Take(b)];
    assert [Post(b), Wait, Take(b)][1..] == [Wait, Take(b)];
    assert Runs(s1, [Wait, Take(b)]) && !NoWarning(s1, [Wait, Take(b)]);
  }

  /**
   * After a restart some run ends in the warning exactly when a completion was in transit or a
   * buffer set in a consumer's hands: for those no request is free.
   */
  lemma RestartWarns(s: Loop, rows: seq<BufferMap>)
    ensures (exists es :: Runs(Restarted(s, rows), es) && !NoWarning(Restarted(s, rows), es)) <==>
      s.transit != multiset{} || s.held != multiset{}
  {
    var t := Restarted(s, rows);
    if b :| b in s.held {
      HeldWarns(t, b);
    } else if b :| b in s.transit {
      TransitWarns(t, b);
    } else {
      assert Returning(t) == multiset{};
      forall es | Runs(t, es) ensures NoWarning(t, es) {
        Circulation(t, es, AllRequests(t), AllBuffers(t));
      }
    }
  }

  /** A request that was being queued comes on top of the new ones, with its buffers. */
  lemma RestartDoubles(s: Loop, rows: seq<BufferMap>, b: BufferMap)
    ensures Copies(Restarted(s, rows), b) ==
      multiset(rows)[b] + BuffersOf(s.queueing)[b] + s.transit[b] + s.held[b]
  {
    JobsOfRows(rows);
  }

  /** A run to the warning: one request completes and reaches its consumer, then the camera restarts. */
  lemma RestartGoesWrong(row: BufferMap)
    ensures var es := [Complete(0), Post(row), Wait];
      && Runs(Started([row]), es)
      && var t := Restarted(Final(Started([row]), es), [row]);
         Runs(t, [Take(row)]) && !NoWarning(t, [Take(row)])
  {
    var s := Started([row]);
    assert [row][..0] == [] && Jobs([row]) == [Job(0, row)];
    var s1 := Step(s, Complete(0));
    assert s1.transit == multiset{row};
    var s2 := Step(s1, Post(row));
    assert [] + [row] == [row] && s2.messages == [row];
    var s3 := Step(s2, Wait);
    assert [Wait][1..] == [] && [Post(row), Wait][1..] == [Wait];
    assert [Complete(0), Post(row), Wait][1..] == [Post(row), Wait];
    assert Runs(s3, []) && Final(s3, []) == s3;
    assert Runs(s2, [Wait]) && Final(s2, [Wait]) == s3;
    assert Runs(s1, [Post(row), Wait]) && Final(s1, [Post(row), Wait]) == s3;
    HeldWarns(Restarted(s3, [row]), row);
  }
}
