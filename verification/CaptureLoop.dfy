/**
 * The counted capture of the cam tool and its event loop, as atomic steps: the camera thread
 * completes requests and hands them over, the event thread dispatches them, in any interleaving.
 */
module CaptureLoop {
  import opened Machine
  import opened Seqs

  type Request = nat

  /** Where the requests are. */
  datatype Places = Places(
    waiting: seq<Request>,       // not queued yet by the loop that starts the capture
    camera: multiset<Request>,
    calls: seq<Request>,         // completed; the event loop's deferred calls, in order
    idle: multiset<Request>,     // not queued again, as the limit was reached
    lost: multiset<Request>)     // the camera refused them

  /**
   * `notified` counts the event loop's pending callbacks, `unannounced` the calls pushed whose
   * callback has not been asked for yet.
   */
  datatype Capture = Capture(
    limit: U32, queueCount: U32, captureCount: U32, at: Places, unannounced: nat, notified: nat,
    exited: bool,
    failed: bool)                // the capture did not start

  datatype Event =
    | Queue(accepted: bool)      // the starting loop queues the next request
    | Complete(r: Request)       // requestComplete: callLater pushes the call
    | Announce                   // callLater asks for a callback
    | Dispatch(accepted: bool)   // dispatchCall: processRequest of the first call

  function AllRequests(n: nat): (rs: seq<Request>)
    ensures |rs| == n
  {
    if n == 0 then [] else AllRequests(n - 1) + [n - 1]
  }

  function Started(limit: U32, n: nat): Capture {
    Capture(limit, 0, 0, Places(AllRequests(n), multiset{}, [], multiset{}, multiset{}), 0, 0, false, false)
  }

  predicate Enabled(s: Capture, e: Event) {
    !s.exited && !s.failed &&
    match e
    case Queue(_) => s.at.waiting != []
    case Complete(r) => r in s.at.camera
    case Announce => s.unannounced > 0
    case Dispatch(_) => s.at.waiting == [] && s.notified > 0
  }

  /** Nothing more can happen. */
  ghost predicate Stuck(s: Capture) {
    forall e :: !Enabled(s, e)
  }

  predicate AtLimit(s: Capture) {
    s.limit != 0 && s.queueCount >= s.limit
  }

  /** Where queueRequest puts a request. */
  function Queued(p: Places, r: Request, atLimit: bool, accepted: bool): Places {
    if atLimit then p.(idle := p.idle + multiset{r})
    else if accepted then p.(camera := p.camera + multiset{r})
    else p.(lost := p.lost + multiset{r})
  }

  function QueueRequest(s: Capture, r: Request, accepted: bool): Capture {
    s.(at := Queued(s.at, r, AtLimit(s), accepted),
       queueCount := if AtLimit(s) then s.queueCount else ToU32(s.queueCount + 1))
  }

  /** processRequest; the result of queueRequest is not looked at. */
  function Process(s: Capture, r: Request, accepted: bool): Capture {
    var t := Reported(s);
    if t.limit != 0 && t.captureCount >= t.limit then Leave(t, r) else QueueRequest(t, r, accepted)
  }

  function Reported(s: Capture): Capture {
    s.(captureCount := ToU32(s.captureCount + 1))
  }

  function Leave(s: Capture, r: Request): Capture {
    s.(exited := true, at := Queued(s.at, r, true, true))
  }

  /** The capture with its first call taken from the queue. */
  function CallTaken(s: Capture): Capture
    requires s.at.calls != [] && s.notified > 0
  {
    s.(notified := s.notified - 1, at := s.at.(calls := s.at.calls[1..]))
  }

  function Step(s: Capture, e: Event): Capture
    requires Enabled(s, e)
  {
    match e
    case Queue(accepted) =>
      // queueRequest returns no error when it queues nothing.
      var t := s.(at := s.at.(waiting := s.at.waiting[1..]), failed := !accepted && !AtLimit(s));
      QueueRequest(t, s.at.waiting[0], accepted)
    case Complete(r) =>
      s.(at := s.at.(camera := s.at.camera - multiset{r}, calls := s.at.calls + [r]),
         unannounced := s.unannounced + 1)
    case Announce => s.(unannounced := s.unannounced - 1, notified := s.notified + 1)
    case Dispatch(accepted) =>
      if s.at.calls == [] then s.(notified := s.notified - 1)
      else
        Process(CallTaken(s), s.at.calls[0], accepted)
  }

  predicate Runs(s: Capture, es: seq<Event>)
    decreases es
  {
    es == [] || (Enabled(s, es[0]) && Runs(Step(s, es[0]), es[1..]))
  }

  function Final(s: Capture, es: seq<Event>): Capture
    requires Runs(s, es)
    decreases es
  {
    if es == [] then s else Final(Step(s, es[0]), es[1..])
  }

  // ----- what every step keeps -----

  /** In how many places a request is. */
  function Count(p: Places, r: Request): nat {
    multiset(p.waiting)[r] + p.camera[r] + multiset(p.calls)[r] + p.idle[r] + p.lost[r]
  }

  ghost predicate EachOnce(p: Places, n: nat) {
    forall r: Request :: Count(p, r) == if r < n then 1 else 0
  }

  /** The requests queued and not yet captured. */
  function Outstanding(p: Places): nat {
    |p.camera| + |p.calls| + |p.lost|
  }

  /** Each queued request is accounted for: exactly with a limit, modulo 2^32 without one. */
  predicate Counted(s: Capture) {
    if s.limit == 0 then ToU32(s.captureCount + Outstanding(s.at)) == s.queueCount
    else s.captureCount + Outstanding(s.at) == s.queueCount <= s.limit
  }

  predicate Flags(s: Capture) {
    && s.unannounced + s.notified == |s.at.calls|
    && (s.exited <==> s.limit != 0 && s.captureCount == s.limit)
    && (s.exited ==> s.at.waiting == [])
    && (s.at.idle != multiset{} ==> AtLimit(s))
  }

  ghost predicate Inv(s: Capture, n: nat) {
    EachOnce(s.at, n) && Counted(s) && Flags(s)
  }

  lemma HeadOff(q: seq<Request>, r: Request)
    requires q != []
    ensures multiset(q)[r] == multiset(q[1..])[r] + if r == q[0] then 1 else 0
  {
    assert q == [q[0]] + q[1..];
  }

  lemma QueuedCount(p: Places, q: Request, atLimit: bool, accepted: bool, r: Request)
    ensures Count(Queued(p, q, atLimit, accepted), r) == Count(p, r) + if r == q then 1 else 0
    ensures Outstanding(Queued(p, q, atLimit, accepted)) == Outstanding(p) + if atLimit then 0 else 1
  {
  }

  lemma ProcessPlaces(s: Capture, q: Request, accepted: bool, r: Request)
    ensures Count(Process(s, q, accepted).at, r) == Count(s.at, r) + if r == q then 1 else 0
  {
    QueuedCount(s.at, q, AtLimit(s), accepted, r);
    QueuedCount(s.at, q, true, true, r);
  }

  lemma TakenCount(p: Places, r: Request)
    ensures p.waiting != [] ==>
      Count(p, r) == Count(p.(waiting := p.waiting[1..]), r) + if r == p.waiting[0] then 1 else 0
    ensures p.calls != [] ==>
      Count(p, r) == Count(p.(calls := p.calls[1..]), r) + if r == p.calls[0] then 1 else 0
  {
    if p.waiting != [] { HeadOff(p.waiting, r); }
    if p.calls != [] { HeadOff(p.calls, r); }
  }

  lemma CompletedCount(p: Places, q: Request, r: Request)
    requires q in p.camera
    ensures Count(p.(camera := p.camera - multiset{q}, calls := p.calls + [q]), r) == Count(p, r)
  {
    MultisetConcat(p.calls, [q]);
  }

  lemma QueuePlaces(s: Capture, accepted: bool, r: Request)
    requires Enabled(s, Queue(accepted))
    ensures Count(Step(s, Queue(accepted)).at, r) == Count(s.at, r)
  {
    var p := s.at;
    TakenCount(p, r);
    QueuedCount(p.(waiting := p.waiting[1..]), p.waiting[0], AtLimit(s), accepted, r);
  }

  lemma DispatchPlaces(s: Capture, accepted: bool, r: Request)
    requires Enabled(s, Dispatch(accepted))
    ensures Count(Step(s, Dispatch(accepted)).at, r) == Count(s.at, r)
  {
    var p := s.at;
    if p.calls != [] {
      TakenCount(p, r);
      ProcessPlaces(CallTaken(s), p.calls[0], accepted, r);
    }
  }

  /** No step loses a request or puts it in two places. */
  lemma StepPlaces(s: Capture, e: Event, r: Request)
    requires Enabled(s, e)
    ensures Count(Step(s, e).at, r) == Count(s.at, r)
  {
    match e
    case Queue(accepted) => QueuePlaces(s, accepted, r);
    case Complete(q) => CompletedCount(s.at, q, r);
    case Announce =>
    case Dispatch(accepted) => DispatchPlaces(s, accepted, r);
  }

  lemma QueueCounts(s: Capture, q: Request, accepted: bool)
    requires Counted(s)
    ensures Counted(QueueRequest(s, q, accepted))
  {
    QueuedCount(s.at, q, AtLimit(s), accepted, q);
    if s.limit == 0 {
      AddU32(s.captureCount + Outstanding(s.at), 1);
    } else if !AtLimit(s) {
      SmallU32(s.queueCount + 1);
    }
  }

  /** One call has been taken from the queue and not been counted yet. */
  predicate OneShort(s: Capture) {
    if s.limit == 0 then ToU32(s.captureCount + Outstanding(s.at) + 1) == s.queueCount
    else s.captureCount + Outstanding(s.at) + 1 == s.queueCount <= s.limit
  }

  lemma CountOne(s: Capture)
    requires OneShort(s)
    ensures Counted(Reported(s))
  {
    if s.limit == 0 {
      AddU32(s.captureCount + 1, Outstanding(s.at));
    } else {
      SmallU32(s.captureCount + 1);
    }
  }

  lemma ProcessCounts(s: Capture, q: Request, accepted: bool)
    requires OneShort(s)
    ensures Counted(Process(s, q, accepted))
  {
    CountOne(s);
    LeaveCounts(Reported(s), q);
    QueueCounts(Reported(s), q, accepted);
  }

  lemma LeaveCounts(s: Capture, q: Request)
    requires Counted(s)
    ensures Counted(Leave(s, q))
  {
    QueuedCount(s.at, q, true, true, q);
  }

  lemma TakenIsShort(s: Capture)
    requires Counted(s) && s.at.calls != [] && s.notified > 0
    ensures OneShort(CallTaken(s))
  {
    assert Outstanding(CallTaken(s).at) + 1 == Outstanding(s.at);
  }

  lemma DispatchCounts(s: Capture, accepted: bool)
    requires Counted(s) && Flags(s) && Enabled(s, Dispatch(accepted))
    ensures s.at.calls != [] && Counted(Step(s, Dispatch(accepted)))
  {
    TakenIsShort(s);
    ProcessCounts(CallTaken(s), s.at.calls[0], accepted);
  }

  lemma StepCounts(s: Capture, e: Event)
    requires Counted(s) && Flags(s) && Enabled(s, e)
    ensures Counted(Step(s, e))
  {
    match e
    case Queue(accepted) =>
      var t := s.(at := s.at.(waiting := s.at.waiting[1..]), failed := !accepted && !AtLimit(s));
      QueueCounts(t, s.at.waiting[0], accepted);
    case Complete(r) => assert |s.at.camera - multiset{r}| == |s.at.camera| - 1;
    case Announce =>
    case Dispatch(accepted) => DispatchCounts(s, accepted);
  }

  lemma QueueFlags(s: Capture, accepted: bool)
    requires Counted(s) && Flags(s) && Enabled(s, Queue(accepted))
    ensures Flags(Step(s, Queue(accepted)))
  {
  }

  lemma DispatchFlags(s: Capture, accepted: bool)
    requires Counted(s) && Flags(s) && Enabled(s, Dispatch(accepted))
    ensures Flags(Step(s, Dispatch(accepted)))
  {
  }

  lemma StepFlags(s: Capture, e: Event)
    requires Counted(s) && Flags(s) && Enabled(s, e)
    ensures Flags(Step(s, e))
  {
    match e
    case Queue(accepted) => QueueFlags(s, accepted);
    case Dispatch(accepted) => DispatchFlags(s, accepted);
    case _ =>
  }

  lemma StepKeeps(s: Capture, e: Event, n: nat)
    requires Inv(s, n) && Enabled(s, e)
    ensures Inv(Step(s, e), n)
  {
    forall r: Request ensures Count(Step(s, e).at, r) == if r < n then 1 else 0 {
      StepPlaces(s, e, r);
    }
    StepCounts(s, e);
    StepFlags(s, e);
  }

  lemma {:induction false} AllRequestsOnce(n: nat, r: Request)
    ensures multiset(AllRequests(n))[r] == if r < n then 1 else 0
  {
    if n > 0 {
      AllRequestsOnce(n - 1, r);
    }
  }

  lemma {:induction false} StartedInv(limit: U32, n: nat)
    ensures Inv(Started(limit, n), n)
  {
    forall r: Request ensures Count(Started(limit, n).at, r) == if r < n then 1 else 0 {
      AllRequestsOnce(n, r);
    }
  }

  /**
   * In every interleaving each request is in exactly one place; with a limit, those in the camera,
   * in deferred calls or refused are exactly the queued ones not yet captured, and never more than
   * the limit are queued; each deferred call has its callback.
   */
  lemma {:induction false} RunKeeps(s: Capture, es: seq<Event>, n: nat)
    requires Inv(s, n) && Runs(s, es)
    ensures Inv(Final(s, es), n)
    decreases es
  {
    if es != [] {
      StepKeeps(s, es[0], n);
      RunKeeps(Step(s, es[0]), es[1..], n);
    }
  }

  // ----- no deadlock -----

  lemma StuckWhen(s: Capture)
    requires Flags(s)
    ensures Stuck(s) <==>
      s.exited || s.failed || (s.at.waiting == [] && s.at.camera == multiset{} && s.at.calls == [])
  {
    assert Stuck(s) ==> !Enabled(s, Queue(true)) && !Enabled(s, Announce) && !Enabled(s, Dispatch(true));
    if r :| r in s.at.camera {
      assert Stuck(s) ==> !Enabled(s, Complete(r));
    }
  }

  /** With something to queue and nothing refused, the capture goes on until its limit. */
  lemma NeverStuck(s: Capture, n: nat)
    requires Inv(s, n) && n > 0 && s.at.lost == multiset{}
    requires !s.failed && (s.limit == 0 || s.captureCount < s.limit)
    ensures !Stuck(s)
  {
    StuckWhen(s);
    assert Count(s.at, 0) == 1;
  }

  /** When the loop is left, exactly the limit has been captured, and nothing is outstanding. */
  lemma ExitIsClean(s: Capture, n: nat)
    requires Inv(s, n) && s.exited
    ensures s.captureCount == s.queueCount == s.limit
    ensures s.at.waiting == s.at.calls == [] && s.at.camera == s.at.lost == multiset{}
    ensures s.unannounced == s.notified == 0
    ensures forall r: Request :: s.at.idle[r] == if r < n then 1 else 0
  {
    forall r: Request ensures s.at.idle[r] == if r < n then 1 else 0 {
      assert Count(s.at, r) == if r < n then 1 else 0;
    }
  }

  /**
   * A started capture with a limit that can go no further has left its loop exactly when the camera
   * refused no request: processRequest ignores the refusal, and then no more frames come.
   */
  lemma LeavesWhen(s: Capture, n: nat)
    requires Inv(s, n) && n > 0 && s.limit != 0 && !s.failed && Stuck(s)
    ensures s.exited <==> s.at.lost == multiset{}
  {
    if s.exited {
      ExitIsClean(s, n);
    } else if s.at.lost == multiset{} {
      NeverStuck(s, n);
    }
  }

  // ----- termination -----

  /** The steps that are left until the loop is left. */
  function Left(s: Capture): int {
    |s.at.waiting| + 3 * (s.limit - s.captureCount) - |s.at.calls| - s.notified
  }

  lemma LeftIsNatural(s: Capture)
    requires Counted(s) && Flags(s) && s.limit != 0
    ensures Left(s) >= s.limit - s.captureCount >= 0
  {
  }

  lemma DispatchLeft(s: Capture, accepted: bool)
    requires Counted(s) && Flags(s) && s.limit != 0 && Enabled(s, Dispatch(accepted))
    ensures var t := Step(s, Dispatch(accepted));
      && t.captureCount == s.captureCount + 1 && t.notified == s.notified - 1
      && t.at.waiting == s.at.waiting && |t.at.calls| == |s.at.calls| - 1 && t.limit == s.limit
  {
  }

  lemma EachStepCounts(s: Capture, e: Event)
    requires Counted(s) && Flags(s) && s.limit != 0 && Enabled(s, e)
    ensures Left(Step(s, e)) == Left(s) - 1 && Step(s, e).limit == s.limit
  {
    match e
    case Queue(accepted) => assert Step(s, e).at.calls == s.at.calls;
    case Complete(_) =>
    case Announce =>
    case Dispatch(accepted) => DispatchLeft(s, accepted);
  }

  lemma {:induction false} RunLength(s: Capture, es: seq<Event>, n: nat)
    requires Inv(s, n) && s.limit != 0 && Runs(s, es)
    ensures |es| == Left(s) - Left(Final(s, es)) && Final(s, es).limit == s.limit
    decreases es
  {
    if es != [] {
      EachStepCounts(s, es[0]);
      StepKeeps(s, es[0], n);
      RunLength(Step(s, es[0]), es[1..], n);
    }
  }

  // ----- the frames, in order -----

  predicate Accepts(e: Event) {
    (e.Queue? || e.Dispatch?) ==> e.accepted
  }

  predicate AllAccepted(es: seq<Event>) {
    es == [] || (Accepts(es[0]) && AllAccepted(es[1..]))
  }

  /** The requests the camera completes in a run. */
  function Completions(es: seq<Event>): seq<Request> {
    if es == [] then []
    else (if es[0].Complete? then [es[0].r] else []) + Completions(es[1..])
  }

  /** The requests that processRequest reports in a run. */
  function Captured(s: Capture, es: seq<Event>): seq<Request>
    requires Runs(s, es)
    decreases es
  {
    if es == [] then []
    else
      (if es[0].Dispatch? && s.at.calls != [] then [s.at.calls[0]] else []) + Captured(Step(s, es[0]), es[1..])
  }

  lemma AcceptedStep(s: Capture, e: Event)
    requires Enabled(s, e) && Accepts(e) && s.at.lost == multiset{} && !s.failed
    ensures Step(s, e).at.lost == multiset{} && !Step(s, e).failed
  {
  }

  lemma {:induction false} NothingLost(s: Capture, es: seq<Event>)
    requires Runs(s, es) && AllAccepted(es) && s.at.lost == multiset{} && !s.failed
    ensures Final(s, es).at.lost == multiset{} && !Final(s, es).failed
    decreases es
  {
    if es != [] {
      AcceptedStep(s, es[0]);
      NothingLost(Step(s, es[0]), es[1..]);
    }
  }

  lemma StepCalls(s: Capture, e: Event)
    requires Enabled(s, e)
    ensures s.at.calls + (if e.Complete? then [e.r] else [])
         == (if e.Dispatch? && s.at.calls != [] then [s.at.calls[0]] else []) + Step(s, e).at.calls
  {
  }

  /** Every completed frame is reported or still to be, in the order of completion. */
  lemma {:induction false} FramesInOrder(s: Capture, es: seq<Event>)
    requires Runs(s, es)
    ensures s.at.calls + Completions(es) == Captured(s, es) + Final(s, es).at.calls
    decreases es
  {
    if es == [] {
      ConcatEmpty(s.at.calls);
    } else {
      var t := Step(s, es[0]);
      var completed := if es[0].Complete? then [es[0].r] else [];
      var taken := if es[0].Dispatch? && s.at.calls != [] then [s.at.calls[0]] else [];
      StepCalls(s, es[0]);
      FramesInOrder(t, es[1..]);
      Assoc(s.at.calls, completed, Completions(es[1..]));
      Assoc(taken, t.at.calls, Completions(es[1..]));
      Assoc(taken, Captured(t, es[1..]), Final(s, es).at.calls);
    }
  }

  /** A request refused while the capture is being started, below the limit, ends it there. */
  lemma RefusedAtStart(s: Capture, accepted: bool)
    requires Enabled(s, Queue(accepted))
    ensures var t := Step(s, Queue(accepted));
      && (t.failed <==> !accepted && (s.limit == 0 || s.queueCount < s.limit))
      && (t.failed ==> Stuck(t) && !t.exited && t.captureCount == s.captureCount)
  {
  }

  /** The loop that starts the capture queues the requests in their order, as long as none is too many. */
  lemma QueuedAtStart(s: Capture)
    requires Enabled(s, Queue(true)) && (s.limit == 0 || s.queueCount < s.limit)
    ensures var t := Step(s, Queue(true));
      && s.at.waiting == [s.at.waiting[0]] + t.at.waiting
      && t.at.camera == s.at.camera + multiset{s.at.waiting[0]}
      && t.queueCount == (s.queueCount + 1) % 0x1_0000_0000 && !t.failed
  {
  }

  /** A 32-bit counter that has gone up by n. */
  predicate CountsUp(before: nat, n: nat, after: nat) {
    after == (before + n) % 0x1_0000_0000
  }

  lemma StepCaptures(s: Capture, e: Event)
    requires Enabled(s, e)
    ensures CountsUp(s.captureCount, if e.Dispatch? && s.at.calls != [] then 1 else 0, Step(s, e).captureCount)
  {
  }

  lemma {:induction false} CapturesCounted(s: Capture, es: seq<Event>)
    requires Runs(s, es)
    ensures CountsUp(s.captureCount, |Captured(s, es)|, Final(s, es).captureCount)
    decreases es
  {
    if es != [] {
      var one := if es[0].Dispatch? && s.at.calls != [] then 1 else 0;
      StepCaptures(s, es[0]);
      CapturesCounted(Step(s, es[0]), es[1..]);
      CapturedFirst(s, es);
      CountOn(s.captureCount, one, Step(s, es[0]).captureCount, |Captured(Step(s, es[0]), es[1..])|,
              Final(s, es).captureCount);
    }
  }

  lemma CountOn(a: nat, m: nat, b: nat, n: nat, c: nat)
    requires CountsUp(a, m, b) && CountsUp(b, n, c)
    ensures CountsUp(a, m + n, c)
  {
    AddU32(a + m, n);
  }

  lemma {:induction false} CapturedFirst(s: Capture, es: seq<Event>)
    requires es != [] && Runs(s, es)
    ensures |Captured(s, es)| ==
      (if es[0].Dispatch? && s.at.calls != [] then 1 else 0) + |Captured(Step(s, es[0]), es[1..])|
  {
  }

  lemma LimitedStep(s: Capture, e: Event, n: nat)
    requires Inv(s, n) && s.limit != 0 && Enabled(s, e)
    ensures Inv(Step(s, e), n) && Step(s, e).limit == s.limit
    ensures Step(s, e).captureCount == s.captureCount + if e.Dispatch? && s.at.calls != [] then 1 else 0
  {
    StepKeeps(s, e, n);
    EachStepCounts(s, e);
    StepCaptures(s, e);
    LeftIsNatural(s);
    LeftIsNatural(Step(s, e));
  }

  lemma {:induction false} LimitedCaptures(s: Capture, es: seq<Event>, n: nat)
    requires Inv(s, n) && s.limit != 0 && Runs(s, es)
    ensures |Captured(s, es)| == Final(s, es).captureCount - s.captureCount
    decreases es
  {
    if es != [] {
      LimitedStep(s, es[0], n);
      LimitedCaptures(Step(s, es[0]), es[1..], n);
      CapturedFirst(s, es);
    }
  }

  /**
   * A whole capture of `limit` frames with n requests, none of them refused, run until nothing more
   * can happen: the loop is left after exactly n + 3 * limit steps, and the frames reported are all
   * the completed ones, `limit` of them, in the order of completion.
   */
  lemma CaptureRun(limit: U32, n: nat, es: seq<Event>)
    requires limit != 0 && n > 0 && Runs(Started(limit, n), es) && AllAccepted(es)
    ensures |es| <= n + 3 * limit
    ensures Stuck(Final(Started(limit, n), es)) <==> |es| == n + 3 * limit
    ensures Stuck(Final(Started(limit, n), es)) ==>
      && Final(Started(limit, n), es).exited
      && Captured(Started(limit, n), es) == Completions(es) && |Completions(es)| == limit
  {
    var s := Started(limit, n);
    var t := Final(s, es);
    StartedInv(limit, n);
    RunKeeps(s, es, n);
    RunLength(s, es, n);
    LeftIsNatural(t);
    NothingLost(s, es);
    FramesInOrder(s, es);
    LimitedCaptures(s, es, n);
    ConcatEmpty(Completions(es));
    ConcatEmpty(Captured(s, es));
    if Stuck(t) {
      LeavesWhen(t, n);
      ExitIsClean(t, n);
    } else if t.captureCount == limit {
      StuckWhen(t);
    }
  }
}
