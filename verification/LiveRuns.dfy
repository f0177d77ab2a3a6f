/** What every run of the live view keeps: each frame has one owner, and its fate is final. */
module LiveRuns {
  import opened Machine
  import opened LiveSlot

  lemma StepKeepsQuiet(s: State, e: Event, maxLatency: U32)
    requires Enabled(s, e) && (s.live.stopping ==> Quiet(s.live))
    ensures Step(s, e, maxLatency).live.stopping ==> Quiet(Step(s, e, maxLatency).live)
  {
  }

  lemma InvIs(s: State)
    requires SlotOwned(s) && InOrder(s) && (s.live.stopping ==> Quiet(s.live))
    ensures Inv(s)
  {
  }

  lemma StepKeeps(s: State, e: Event, maxLatency: U32)
    requires Inv(s) && Enabled(s, e)
    ensures Inv(Step(s, e, maxLatency))
  {
    StepKeepsSlot(s, e, maxLatency);
    StepKeepsOrder(s, e, maxLatency);
    StepKeepsQuiet(s, e, maxLatency);
    InvIs(Step(s, e, maxLatency));
  }

  lemma InitialInv()
    ensures Inv(Initial())
  {
  }

  lemma {:induction false} InvKept(s: State, es: seq<Event>, maxLatency: U32)
    requires Inv(s) && Runs(s, es, maxLatency)
    ensures Inv(Final(s, es, maxLatency))
    decreases es
  {
    if es != [] {
      StepKeeps(s, es[0], maxLatency);
      InvKept(Step(s, es[0], maxLatency), es[1..], maxLatency);
    }
  }

  /**
   * From the start, in every interleaving: the frame in the slot is in no other place, and the
   * frames that consumers got are exactly the delivered ones, each once, in the order of capture,
   * with their time stamps.
   */
  lemma RunKeeps(es: seq<Event>, maxLatency: U32)
    requires Runs(Initial(), es, maxLatency)
    ensures Inv(Final(Initial(), es, maxLatency))
  {
    InitialInv();
    InvKept(Initial(), es, maxLatency);
  }

  // ----- a frame's fate is final -----

  predicate KeepsFates(a: seq<Fate>, b: seq<Fate>) {
    |a| <= |b| && forall i :: 0 <= i < |a| && a[i] != InSlot ==> b[i] == a[i]
  }

  lemma StepFates(s: State, e: Event, maxLatency: U32)
    requires Inv(s) && Enabled(s, e)
    ensures KeepsFates(s.history.fates, Step(s, e, maxLatency).history.fates)
  {
  }

  lemma {:induction false} FatesKept(s: State, es: seq<Event>, maxLatency: U32)
    requires Inv(s) && Runs(s, es, maxLatency)
    ensures KeepsFates(s.history.fates, Final(s, es, maxLatency).history.fates)
    decreases es
  {
    if es != [] {
      StepKeeps(s, es[0], maxLatency);
      StepFates(s, es[0], maxLatency);
      FatesKept(Step(s, es[0], maxLatency), es[1..], maxLatency);
    }
  }

  /**
   * Once a frame has left the slot nothing happens to it again, however the run goes on: it is not
   * freed or delivered twice.
   */
  lemma FatesAreFinal(es: seq<Event>, more: seq<Event>, maxLatency: U32)
    requires Runs(Initial(), es, maxLatency) && Runs(Final(Initial(), es, maxLatency), more, maxLatency)
    ensures var s := Final(Initial(), es, maxLatency);
      KeepsFates(s.history.fates, Final(s, more, maxLatency).history.fates)
  {
    RunKeeps(es, maxLatency);
    FatesKept(Final(Initial(), es, maxLatency), more, maxLatency);
  }
}
