/** A capture that never ends: the camera refuses a request, and nobody notices. */
module CaptureRefused {
  import opened CaptureLoop

  /** A run from s to u. */
  ghost predicate Leads(s: Capture, es: seq<Event>, u: Capture) {
    Runs(s, es) && Final(s, es) == u
  }

  lemma LeadsOn(s: Capture, e: Event, t: Capture, es: seq<Event>, u: Capture)
    requires Enabled(s, e) && Step(s, e) == t && Leads(t, es, u)
    ensures Leads(s, [e] + es, u)
  {
    assert ([e] + es)[1..] == es;
  }

  /** A capture of two frames with one request, which is in the camera, completed, or refused. */
  function InCamera(): Capture {
    Capture(2, 1, 0, Places([], multiset{0}, [], multiset{}, multiset{}), 0, 0, false, false)
  }

  function Done(unannounced: nat, notified: nat): Capture {
    Capture(2, 1, 0, Places([], multiset{}, [0], multiset{}, multiset{}), unannounced, notified, false, false)
  }

  function Refused(): Capture {
    Capture(2, 2, 1, Places([], multiset{}, [], multiset{}, multiset{0}), 0, 0, false, false)
  }

  lemma AtDispatch()
    ensures Leads(Done(0, 1), [Dispatch(false)] + [], Refused())
  {
    assert [0][1..] == [];
    LeadsOn(Done(0, 1), Dispatch(false), Refused(), [], Refused());
  }

  lemma AtAnnounce(es: seq<Event>)
    requires Leads(Done(0, 1), es, Refused())
    ensures Leads(Done(1, 0), [Announce] + es, Refused())
  {
    LeadsOn(Done(1, 0), Announce, Done(0, 1), es, Refused());
  }

  lemma AtComplete(es: seq<Event>)
    requires Leads(Done(1, 0), es, Refused())
    ensures Leads(InCamera(), [Complete(0)] + es, Refused())
  {
    assert multiset{0} - multiset{0} == multiset{} && [] + [0] == [0];
    LeadsOn(InCamera(), Complete(0), Done(1, 0), es, Refused());
  }

  lemma AtQueue(es: seq<Event>)
    requires Leads(InCamera(), es, Refused())
    ensures Leads(Started(2, 1), [Queue(true)] + es, Refused())
  {
    assert AllRequests(1) == [0] && [0][1..] == [];
    LeadsOn(Started(2, 1), Queue(true), InCamera(), es, Refused());
  }

  /**
   * The run: the camera refuses the one request when it is queued for the second frame; one frame of
   * two has been captured, the loop has not been left, and nothing more can happen.
   */
  lemma RefusedNeverLeaves() returns (es: seq<Event>)
    ensures Runs(Started(2, 1), es)
    ensures var s := Final(Started(2, 1), es); Stuck(s) && !s.exited && !s.failed && s.captureCount == 1
  {
    es := [Dispatch(false)] + [];
    AtDispatch();
    AtAnnounce(es);
    es := [Announce] + es;
    AtComplete(es);
    es := [Complete(0)] + es;
    AtQueue(es);
    es := [Queue(true)] + es;
    StuckWhen(Refused());
  }
}
