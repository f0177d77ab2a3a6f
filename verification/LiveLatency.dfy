/** The age of the live view: how old the frame in the slot, and a delivered one, can be. */
module LiveLatency {
  import opened Machine
  import opened Wrappers
  import opened LiveSlot

  /** The frame in the slot is at most maxLatency older than the newest one captured. */
  predicate Fresh(l: Live, maxLatency: U32) {
    l.slot.Some? ==> ToU64(l.clock.pts - l.slot.value.pts) <= maxLatency
  }

  /** A frame seen while streaming leaves a fresh slot, whatever was there before. */
  lemma StreamingFreshens(s: State, pts: U64, now: U32, a: Answers, maxLatency: U32)
    requires Enabled(s, Capture(pts, now, a)) && !s.live.record && !TimedOut(s.live, now)
    ensures Fresh(Step(s, Capture(pts, now, a), maxLatency).live, maxLatency)
  {
  }

  lemma OtherStepsKeepFresh(s: State, e: Event, maxLatency: U32)
    requires Enabled(s, e) && Fresh(s.live, maxLatency) && (e.Capture? ==> !s.live.record)
    ensures Fresh(Step(s, e, maxLatency).live, maxLatency)
  {
  }

  /** No frame is captured while a recording is on. */
  predicate StreamOnly(s: State, es: seq<Event>, maxLatency: U32)
    requires Runs(s, es, maxLatency)
    decreases es
  {
    es == [] ||
    ((es[0].Capture? ==> !s.live.record) && StreamOnly(Step(s, es[0], maxLatency), es[1..], maxLatency))
  }

  lemma {:induction false} StreamingStaysFresh(s: State, es: seq<Event>, maxLatency: U32)
    requires Runs(s, es, maxLatency) && StreamOnly(s, es, maxLatency) && Fresh(s.live, maxLatency)
    ensures Fresh(Final(s, es, maxLatency).live, maxLatency)
    decreases es
  {
    if es != [] {
      OtherStepsKeepFresh(s, es[0], maxLatency);
      StreamingStaysFresh(Step(s, es[0], maxLatency), es[1..], maxLatency);
    }
  }

  /**
   * A frame delivered after any run of steps with no frame captured while recording is at most
   * maxLatency older than the newest frame, if time stamps stay below 2^63.
   */
  lemma DeliveredInTime(es: seq<Event>, maxLatency: U32)
    requires Runs(Initial(), es, maxLatency) && StreamOnly(Initial(), es, maxLatency)
    requires Enabled(Final(Initial(), es, maxLatency), Deliver)
    requires Final(Initial(), es, maxLatency).live.slot.Some?
    requires Final(Initial(), es, maxLatency).live.slot.value.pts < 0x8000_0000_0000_0000
    ensures var t := Step(Final(Initial(), es, maxLatency), Deliver, maxLatency);
      && t.history.delivered != []
      && var f := t.history.delivered[|t.history.delivered| - 1];
         f.pts <= t.live.clock.pts <= f.pts + maxLatency
  {
    StreamingStaysFresh(Initial(), es, maxLatency);
  }

  // ----- when it is late -----

  /** A frame that passed the time-out check: whether it came during a recording, and its stamp. */
  datatype Seen = Seen(recording: bool, stamp: U64)

  function SeenAfter(s: State, e: Event, seen: Option<Seen>): Option<Seen> {
    match e
    case Capture(pts, now, _) =>
      if TimedOut(s.live, now) then seen else Some(Seen(s.live.record, Stamp(s.live.clock, pts)))
    case Start => None
    case _ => seen
  }

  /** The newest such frame of a run since the last kcStart, given the newest one before it. */
  function Newest(s: State, es: seq<Event>, seen: Option<Seen>, maxLatency: U32): Option<Seen>
    requires Runs(s, es, maxLatency)
    decreases es
  {
    if es == [] then seen
    else Newest(Step(s, es[0], maxLatency), es[1..], SeenAfter(s, es[0], seen), maxLatency)
  }

  predicate Tracks(l: Live, seen: Option<Seen>, maxLatency: U32) {
    match seen
    case None => l.slot == None
    case Some(n) => l.clock.pts == n.stamp && (!n.recording ==> Fresh(l, maxLatency))
  }

  lemma StepTracks(s: State, e: Event, seen: Option<Seen>, maxLatency: U32)
    requires Enabled(s, e) && Tracks(s.live, seen, maxLatency)
    ensures Tracks(Step(s, e, maxLatency).live, SeenAfter(s, e, seen), maxLatency)
  {
    match e
    case Capture(pts, now, a) => CaptureTracks(s, pts, now, a, seen, maxLatency);
    case _ =>
      if Fresh(s.live, maxLatency) {
        OtherStepsKeepFresh(s, e, maxLatency);
      }
  }

  lemma CaptureTracks(s: State, pts: U64, now: U32, a: Answers, seen: Option<Seen>, maxLatency: U32)
    requires Enabled(s, Capture(pts, now, a)) && Tracks(s.live, seen, maxLatency)
    ensures Tracks(
      Step(s, Capture(pts, now, a), maxLatency).live, SeenAfter(s, Capture(pts, now, a), seen), maxLatency)
  {
    if !s.live.record && !TimedOut(s.live, now) {
      StreamingFreshens(s, pts, now, a, maxLatency);
    }
  }

  lemma {:induction false} RunTracks(s: State, es: seq<Event>, seen: Option<Seen>, maxLatency: U32)
    requires Runs(s, es, maxLatency) && Tracks(s.live, seen, maxLatency)
    ensures Tracks(Final(s, es, maxLatency).live, Newest(s, es, seen, maxLatency), maxLatency)
    decreases es
  {
    if es != [] {
      StepTracks(s, es[0], seen, maxLatency);
      RunTracks(Step(s, es[0], maxLatency), es[1..], SeenAfter(s, es[0], seen), maxLatency);
    }
  }

  /**
   * The frame that a run ends by delivering is more than maxLatency older than the newest one
   * exactly when that newest one came during a recording and is stamped so much later.
   */
  lemma LateWhen(es: seq<Event>, maxLatency: U32)
    requires Runs(Initial(), es, maxLatency) && Enabled(Final(Initial(), es, maxLatency), Deliver)
    requires Final(Initial(), es, maxLatency).live.slot.Some?
    ensures var t := Step(Final(Initial(), es, maxLatency), Deliver, maxLatency);
      && t.history.delivered != []
      && var f := t.history.delivered[|t.history.delivered| - 1];
         var newest := Newest(Initial(), es, None, maxLatency);
         ToU64(t.live.clock.pts - f.pts) > maxLatency <==>
           newest.Some? && newest.value.recording && ToU64(newest.value.stamp - f.pts) > maxLatency
  {
    RunTracks(Initial(), es, None, maxLatency);
    DeliversLate(Final(Initial(), es, maxLatency), Newest(Initial(), es, None, maxLatency), maxLatency);
  }

  lemma DeliversLate(s: State, seen: Option<Seen>, maxLatency: U32)
    requires Tracks(s.live, seen, maxLatency) && Enabled(s, Deliver) && s.live.slot.Some?
    ensures var t := Step(s, Deliver, maxLatency);
      && t.history.delivered != []
      && var f := t.history.delivered[|t.history.delivered| - 1];
         ToU64(t.live.clock.pts - f.pts) > maxLatency <==>
           seen.Some? && seen.value.recording && ToU64(seen.value.stamp - f.pts) > maxLatency
  {
  }

  // ----- a run that is -----

  /** A run from s to u. */
  ghost predicate Leads(s: State, es: seq<Event>, u: State, maxLatency: U32) {
    Runs(s, es, maxLatency) && Final(s, es, maxLatency) == u
  }

  lemma LeadsOn(s: State, e: Event, t: State, es: seq<Event>, u: State, maxLatency: U32)
    requires Enabled(s, e) && Step(s, e, maxLatency) == t && Leads(t, es, u, maxLatency)
    ensures Leads(s, [e] + es, u, maxLatency)
  {
    assert ([e] + es)[1..] == es;
  }

  const GIVEN := Answers(true, true, false)

  /** The live view after one frame, and after a second one that came while recording. */
  function OneFrame(recording: bool): State {
    State(
      Live(true, false, recording, Some(Frame(0, 0)), Clock(0, 0, 0, 0), false, false, 0),
      History([0], [InSlot], []))
  }

  function TwoFrames(recording: bool, pts: U64, timer: U32, waiting: nat): State {
    State(Live(true, false, recording, Some(Frame(0, 0)), Clock(0, pts, pts, timer), false, false, waiting),
          History([0, pts], [InSlot, Recorded], []))
  }

  function NoFrame(): State {
    State(Live(true, false, false, None, Clock(-1, 0, 0, 0), false, false, 0), History([], [], []))
  }

  /** The run, from its end to its beginning. */
  lemma AfterSecond(pts: U64, now: U32, maxLatency: U32)
    ensures Leads(
      TwoFrames(true, pts, 0, 0), [StopRecord] + ([Ask(now)] + []), TwoFrames(false, pts, now, 1), maxLatency)
  {
    var end := TwoFrames(false, pts, now, 1);
    LeadsOn(TwoFrames(false, pts, 0, 0), Ask(now), end, [], end, maxLatency);
    LeadsOn(TwoFrames(true, pts, 0, 0), StopRecord, TwoFrames(false, pts, 0, 0), [Ask(now)] + [], end, maxLatency);
  }

  lemma AtSecond(pts: U64, now: U32, es: seq<Event>, end: State, maxLatency: U32)
    requires pts < 0x8000_0000_0000_0000 && Leads(TwoFrames(true, pts, 0, 0), es, end, maxLatency)
    ensures Leads(OneFrame(true), [Capture(pts, now, GIVEN)] + es, end, maxLatency)
  {
    LeadsOn(OneFrame(true), Capture(pts, now, GIVEN), TwoFrames(true, pts, 0, 0), es, end, maxLatency);
  }

  lemma AfterFirst(es: seq<Event>, end: State, maxLatency: U32)
    requires Leads(OneFrame(true), es, end, maxLatency)
    ensures Leads(OneFrame(false), [StartRecord] + es, end, maxLatency)
  {
    LeadsOn(OneFrame(false), StartRecord, OneFrame(true), es, end, maxLatency);
  }

  lemma AtFirst(now: U32, es: seq<Event>, end: State, maxLatency: U32)
    requires Leads(OneFrame(false), es, end, maxLatency)
    ensures Leads(NoFrame(), [Capture(0, now, GIVEN)] + es, end, maxLatency)
  {
    LeadsOn(NoFrame(), Capture(0, now, GIVEN), OneFrame(false), es, end, maxLatency);
  }

  lemma AtStart(es: seq<Event>, end: State, maxLatency: U32)
    requires Leads(NoFrame(), es, end, maxLatency)
    ensures Leads(Initial(), [Start] + es, end, maxLatency)
  {
    LeadsOn(Initial(), Start, NoFrame(), es, end, maxLatency);
  }

  lemma FromTheStart(pts: U64, now: U32, maxLatency: U32) returns (es: seq<Event>)
    requires pts < 0x8000_0000_0000_0000
    ensures Leads(Initial(), es, TwoFrames(false, pts, now, 1), maxLatency)
  {
    var end := TwoFrames(false, pts, now, 1);
    es := [StopRecord] + ([Ask(now)] + []);
    AfterSecond(pts, now, maxLatency);
    AtSecond(pts, now, es, end, maxLatency);
    es := [Capture(pts, now, GIVEN)] + es;
    AfterFirst(es, end, maxLatency);
    es := [StartRecord] + es;
    AtFirst(now, es, end, maxLatency);
    es := [Capture(0, now, GIVEN)] + es;
    AtStart(es, end, maxLatency);
    es := [Start] + es;
  }

  lemma ThenDelivered(pts: U64, now: U32, maxLatency: U32)
    requires maxLatency < pts
    ensures Enabled(TwoFrames(false, pts, now, 1), Deliver)
    ensures var t := Step(TwoFrames(false, pts, now, 1), Deliver, maxLatency);
      t.history.delivered == [Frame(0, 0)] && ToU64(t.live.clock.pts - 0) > maxLatency
  {
  }

  /**
   * Such a run, for every bound and every later stamp: a frame waits in the slot while another is
   * recorded, and is handed out after the recording although it is too old.
   */
  lemma StaleDelivery(pts: U64, now: U32, maxLatency: U32) returns (es: seq<Event>)
    requires maxLatency < pts < 0x8000_0000_0000_0000
    ensures Runs(Initial(), es, maxLatency) && Enabled(Final(Initial(), es, maxLatency), Deliver)
    ensures var t := Step(Final(Initial(), es, maxLatency), Deliver, maxLatency);
      t.history.delivered == [Frame(0, 0)] && ToU64(t.live.clock.pts - 0) > maxLatency
  {
    es := FromTheStart(pts, now, maxLatency);
    ThenDelivered(pts, now, maxLatency);
  }
}
