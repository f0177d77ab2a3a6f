/**
 * The circulation of requests and buffers of LibcameraApp, as atomic steps that may interleave in
 * any order: each region the code protects by a mutex, and each call into the camera, is one step.
 */
module RequestLoop {
  import opened Seqs

  type Stream = nat
  type Buffer = nat
  type Request = nat

  /** The buffers of one request or of one completed request: one for each stream. */
  type BufferMap = map<Stream, Buffer>

  /** A request with the buffers added to it. */
  datatype Job = Job(request: Request, buffers: BufferMap)

  /**
   * Where the requests and buffers are.  `free` and `messages` are the two queues of the class; the
   * other places are the camera and the local variables of the threads.
   */
  datatype Loop = Loop(
    free: seq<Request>,              // free_requests_
    messages: seq<BufferMap>,        // msg_queue_
    camera: seq<Job>,                // queued to the camera, in no particular order
    transit: multiset<BufferMap>,    // in requestComplete, after its request has been freed
    held: multiset<BufferMap>,       // with the consumer
    queueing: seq<Job>)              // in QueueRequest, after a request has been taken

  // ----- what a set of jobs holds -----

  function BuffersOf(jobs: seq<Job>): multiset<BufferMap> {
    if jobs == [] then multiset{}
    else BuffersOf(jobs[..|jobs| - 1]) + multiset{jobs[|jobs| - 1].buffers}
  }

  function RequestsOf(jobs: seq<Job>): multiset<Request> {
    if jobs == [] then multiset{}
    else RequestsOf(jobs[..|jobs| - 1]) + multiset{jobs[|jobs| - 1].request}
  }

  lemma JobsPush(jobs: seq<Job>, j: Job)
    ensures BuffersOf(jobs + [j]) == BuffersOf(jobs) + multiset{j.buffers}
    ensures RequestsOf(jobs + [j]) == RequestsOf(jobs) + multiset{j.request}
  {
    InitLast(jobs, j);
  }

  lemma {:induction false} JobsConcat(a: seq<Job>, b: seq<Job>)
    ensures BuffersOf(a + b) == BuffersOf(a) + BuffersOf(b)
    ensures RequestsOf(a + b) == RequestsOf(a) + RequestsOf(b)
  {
    if b == [] {
      ConcatEmpty(a);
    } else {
      var n := |b| - 1;
      TakeNext(b, n);
      TakeAll(b);
      Assoc(a, b[..n], [b[n]]);
      JobsPush(a + b[..n], b[n]);
      JobsConcat(a, b[..n]);
    }
  }

  lemma {:induction false} JobsWithout(jobs: seq<Job>, i: nat)
    requires i < |jobs|
    ensures BuffersOf(jobs) == BuffersOf(Without(jobs, i)) + multiset{jobs[i].buffers}
    ensures RequestsOf(jobs) == RequestsOf(Without(jobs, i)) + multiset{jobs[i].request}
  {
    var a, x, b := jobs[..i], jobs[i], jobs[i + 1..];
    assert jobs == a + [x] + b;
    JobsConcat(a + [x], b);
    JobsPush(a, x);
    JobsConcat(a, b);
    Regroup(BuffersOf(a), multiset{x.buffers}, BuffersOf(b), multiset{});
    Regroup(RequestsOf(a), multiset{x.request}, RequestsOf(b), multiset{});
  }

  // ----- the steps -----

  datatype Event =
    | Complete(i: nat)            // requestComplete, first half: the request is reused and freed
    | Post(buffers: BufferMap)    // requestComplete, second half: the message is posted
    | Wait                        // the consumer takes a message
    | Take(buffers: BufferMap)    // QueueRequest, first half: a free request is taken
    | Submit(i: nat)              // QueueRequest, second half: it is queued to the camera

  predicate Enabled(s: Loop, e: Event) {
    match e
    case Complete(i) => i < |s.camera|
    case Post(b) => b in s.transit
    case Wait => s.messages != []
    case Take(b) => b in s.held
    case Submit(i) => i < |s.queueing|
  }

  function Step(s: Loop, e: Event): Loop
    requires Enabled(s, e)
  {
    match e
    case Complete(i) =>
      s.(free := s.free + [s.camera[i].request], camera := Without(s.camera, i),
         transit := s.transit + multiset{s.camera[i].buffers})
    case Post(b) => s.(transit := s.transit - multiset{b}, messages := s.messages + [b])
    case Wait => s.(messages := s.messages[1..], held := s.held + multiset{s.messages[0]})
    case Take(b) =>
      if s.free == [] then s.(held := s.held - multiset{b})   // "could not make request"
      else
        s.(free := s.free[1..], held := s.held - multiset{b},
           queueing := s.queueing + [Job(s.free[0], b)])
    case Submit(i) => s.(camera := s.camera + [s.queueing[i]], queueing := Without(s.queueing, i))
  }

  predicate Runs(s: Loop, es: seq<Event>)
    decreases es
  {
    es == [] || (Enabled(s, es[0]) && Runs(Step(s, es[0]), es[1..]))
  }

  function Final(s: Loop, es: seq<Event>): Loop
    requires Runs(s, es)
    decreases es
  {
    if es == [] then s else Final(Step(s, es[0]), es[1..])
  }

  // ----- what every step keeps -----

  /** All the completed buffer sets that will come back to QueueRequest. */
  function Returning(s: Loop): multiset<BufferMap> {
    s.transit + multiset(s.messages) + s.held
  }

  function AllBuffers(s: Loop): multiset<BufferMap> {
    BuffersOf(s.camera) + BuffersOf(s.queueing) + Returning(s)
  }

  function AllRequests(s: Loop): multiset<Request> {
    multiset(s.free) + RequestsOf(s.camera) + RequestsOf(s.queueing)
  }

  /** A free request for every buffer set on its way back, and nothing lost or doubled. */
  predicate Inv(s: Loop, requests: multiset<Request>, tuples: multiset<BufferMap>) {
    |s.free| == |Returning(s)| && AllRequests(s) == requests && AllBuffers(s) == tuples
  }

  lemma MoveOut<T>(a: multiset<T>, x: T)
    requires x in a
    ensures a - multiset{x} + multiset{x} == a
  {
  }

  lemma CompleteKeeps(s: Loop, i: nat)
    requires i < |s.camera|
    ensures var t := Step(s, Complete(i));
      && |t.free| == |s.free| + 1 && |Returning(t)| == |Returning(s)| + 1
      && AllRequests(t) == AllRequests(s) && AllBuffers(t) == AllBuffers(s)
  {
    var t, j := Step(s, Complete(i)), s.camera[i];
    JobsWithout(s.camera, i);
    assert Returning(t) == Returning(s) + multiset{j.buffers};
    assert multiset(t.free) == multiset(s.free) + multiset{j.request};
  }

  lemma PostKeeps(s: Loop, b: BufferMap)
    requires b in s.transit
    ensures var t := Step(s, Post(b)); Returning(t) == Returning(s)
  {
    MoveOut(s.transit, b);
    MultisetConcat(s.messages, [b]);
  }

  lemma WaitKeeps(s: Loop)
    requires s.messages != []
    ensures var t := Step(s, Wait); Returning(t) == Returning(s)
  {
    assert s.messages == [s.messages[0]] + s.messages[1..];
    MultisetConcat([s.messages[0]], s.messages[1..]);
  }

  lemma TakeKeeps(s: Loop, b: BufferMap)
    requires b in s.held && s.free != []
    ensures var t := Step(s, Take(b));
      && |t.free| == |s.free| - 1 && |Returning(t)| == |Returning(s)| - 1
      && AllRequests(t) == AllRequests(s) && AllBuffers(t) == AllBuffers(s)
  {
    TakeReturns(s, b);
    TakeRequests(s, b);
    var t := Step(s, Take(b));
    JobsPush(s.queueing, Job(s.free[0], b));
    Regroup(BuffersOf(s.camera) + BuffersOf(s.queueing), multiset{b}, Returning(t), multiset{});
  }

  lemma TakeReturns(s: Loop, b: BufferMap)
    requires b in s.held && s.free != []
    ensures Returning(Step(s, Take(b))) + multiset{b} == Returning(s)
  {
    MoveOut(s.held, b);
  }

  lemma TakeRequests(s: Loop, b: BufferMap)
    requires b in s.held && s.free != []
    ensures AllRequests(Step(s, Take(b))) == AllRequests(s)
  {
    var x := s.free[0];
    JobsPush(s.queueing, Job(x, b));
    assert s.free == [x] + s.free[1..];
    MultisetConcat([x], s.free[1..]);
    HandOver(multiset(s.free[1..]), RequestsOf(s.camera), RequestsOf(s.queueing), multiset{x});
  }

  lemma SubmitKeeps(s: Loop, i: nat)
    requires i < |s.queueing|
    ensures var t := Step(s, Submit(i));
      AllRequests(t) == AllRequests(s) && AllBuffers(t) == AllBuffers(s)
  {
    var j, rest := s.queueing[i], Without(s.queueing, i);
    JobsWithout(s.queueing, i);
    JobsPush(s.camera, j);
    HandOver(multiset(s.free), RequestsOf(s.camera), RequestsOf(rest), multiset{j.request});
    Regroup(BuffersOf(s.camera), BuffersOf(rest), multiset{j.buffers}, multiset{});
  }

  /** With the camera running, whoever hands back a buffer set finds a free request. */
  lemma NeverOutOfRequests(
      s: Loop, requests: multiset<Request>, tuples: multiset<BufferMap>, b: BufferMap)
    requires Inv(s, requests, tuples) && b in s.held
    ensures s.free != []
  {
    assert b in Returning(s);
  }

  lemma StepKeeps(s: Loop, e: Event, requests: multiset<Request>, tuples: multiset<BufferMap>)
    requires Inv(s, requests, tuples) && Enabled(s, e)
    ensures Inv(Step(s, e), requests, tuples)
  {
    match e {
      case Complete(i) => CompleteKeeps(s, i);
      case Post(b) => PostKeeps(s, b);
      case Wait => WaitKeeps(s);
      case Take(b) =>
        NeverOutOfRequests(s, requests, tuples, b);
        TakeKeeps(s, b);
      case Submit(i) => SubmitKeeps(s, i);
    }
  }

  /** No step of the run finds the free list empty, where the code warns and drops the buffers. */
  predicate NoWarning(s: Loop, es: seq<Event>)
    requires Runs(s, es)
    decreases es
  {
    es == [] || ((es[0].Take? ==> s.free != []) && NoWarning(Step(s, es[0]), es[1..]))
  }

  /**
   * Circulation: whatever the interleaving, there are as many free requests as buffer sets on their
   * way back, no request and no buffer set is lost or doubled, and QueueRequest always finds a
   * request.
   */
  lemma {:induction false} Circulation(
      s: Loop, es: seq<Event>, requests: multiset<Request>, tuples: multiset<BufferMap>)
    requires Inv(s, requests, tuples) && Runs(s, es)
    ensures Inv(Final(s, es), requests, tuples) && NoWarning(s, es)
    decreases es
  {
    if es != [] {
      StepKeeps(s, es[0], requests, tuples);
      if es[0].Take? {
        NeverOutOfRequests(s, requests, tuples, es[0].buffers);
      }
      Circulation(Step(s, es[0]), es[1..], requests, tuples);
    }
  }

  /** The circulation never stops: while there is a buffer set, some step can be taken. */
  lemma NeverStuck(s: Loop, requests: multiset<Request>, tuples: multiset<BufferMap>)
    requires Inv(s, requests, tuples) && tuples != multiset{}
    ensures exists e :: Enabled(s, e)
  {
    var b :| b in tuples;
    if s.camera != [] {
      assert Enabled(s, Complete(0));
    } else if s.queueing != [] {
      assert Enabled(s, Submit(0));
    } else if s.messages != [] {
      assert Enabled(s, Wait);
    } else if b in s.transit {
      assert Enabled(s, Post(b));
    } else {
      assert multiset(s.messages) == multiset{};
      assert b in s.held;
      assert Enabled(s, Take(b));
    }
  }

  /** How many copies of a buffer set there are in the five places together. */
  function Copies(s: Loop, b: BufferMap): nat {
    BuffersOf(s.camera)[b] + BuffersOf(s.queueing)[b] + s.transit[b] + multiset(s.messages)[b] + s.held[b]
  }

  predicate Shares(a: BufferMap, b: BufferMap) {
    exists x, y :: x in a && y in b && a[x] == b[y]
  }

  /** Buffer sets with distinct buffers, each once. */
  ghost predicate Disjoint(tuples: multiset<BufferMap>) {
    forall a, b :: a in tuples && b in tuples ==> tuples[a] == 1 && (a == b || !Shares(a, b))
  }

  /**
   * Exclusivity: of two buffer sets anywhere in the loop that share a buffer, both are the same set
   * of those makeRequests paired, and it is in exactly one place.
   */
  lemma BufferInOnePlace(
      s: Loop, requests: multiset<Request>, tuples: multiset<BufferMap>, a: BufferMap, b: BufferMap)
    requires Inv(s, requests, tuples) && Disjoint(tuples)
    requires Copies(s, a) > 0 && Copies(s, b) > 0 && Shares(a, b)
    ensures a == b && a in tuples && Copies(s, a) == 1
  {
    assert AllBuffers(s)[a] == Copies(s, a) && AllBuffers(s)[b] == Copies(s, b);
  }

  /** A request is in exactly one of the free list, the camera and the hands of QueueRequest. */
  lemma RequestInOnePlace(
      s: Loop, requests: multiset<Request>, tuples: multiset<BufferMap>, r: Request)
    requires Inv(s, requests, tuples) && requests[r] == 1
    ensures multiset(s.free)[r] + RequestsOf(s.camera)[r] + RequestsOf(s.queueing)[r] == 1
  {
    assert AllRequests(s)[r] == 1;
  }

  // ----- starting and stopping -----

  /** StartCamera: request i, with the i-th set of buffers, is queued to the camera. */
  function Jobs(rows: seq<BufferMap>): (jobs: seq<Job>)
    ensures |jobs| == |rows|
  {
    if rows == [] then []
    else Jobs(rows[..|rows| - 1]) + [Job(|rows| - 1, rows[|rows| - 1])]
  }

  function Started(rows: seq<BufferMap>): Loop {
    Loop([], [], Jobs(rows), multiset{}, multiset{}, [])
  }

  function Requests(n: nat): multiset<Request> {
    if n == 0 then multiset{} else Requests(n - 1) + multiset{n - 1}
  }

  lemma {:induction false} JobsOfRows(rows: seq<BufferMap>)
    ensures BuffersOf(Jobs(rows)) == multiset(rows) && RequestsOf(Jobs(rows)) == Requests(|rows|)
  {
    if rows != [] {
      var n := |rows| - 1;
      JobsOfRows(rows[..n]);
      JobsPush(Jobs(rows[..n]), Job(n, rows[n]));
      TakeNext(rows, n);
      TakeAll(rows);
    }
  }

  lemma {:induction false} StartedInv(rows: seq<BufferMap>)
    ensures Inv(Started(rows), Requests(|rows|), multiset(rows))
  {
    JobsOfRows(rows);
    assert Returning(Started(rows)) == multiset{};
  }

  /**
   * StopCamera and StartCamera again: the camera gives up its requests, both queues are cleared and
   * the requests are made afresh.  What other threads hold at that moment, they keep.
   */
  function Restarted(s: Loop, rows: seq<BufferMap>): Loop {
    Loop([], [], Jobs(rows), s.transit, s.held, s.queueing)
  }

  /**
   * A restart is clean exactly when nothing was outstanding: a completion in transit or in the
   * consumer's hands, or a request being queued, from before the restart breaks the circulation.
   */
  lemma RestartIsClean(s: Loop, rows: seq<BufferMap>)
    ensures Inv(Restarted(s, rows), Requests(|rows|), multiset(rows)) <==>
      s.transit == multiset{} && s.held == multiset{} && s.queueing == []
  {
    if s.transit == multiset{} && s.held == multiset{} && s.queueing == [] {
      assert Restarted(s, rows) == Started(rows);
      StartedInv(rows);
    }
    if Inv(Restarted(s, rows), Requests(|rows|), multiset(rows)) {
      CleanMeansNothingOut(s, rows);
    }
  }

  lemma {:induction false} CleanMeansNothingOut(s: Loop, rows: seq<BufferMap>)
    requires Inv(Restarted(s, rows), Requests(|rows|), multiset(rows))
    ensures s.transit == multiset{} && s.held == multiset{} && s.queueing == []
  {
    var t := Restarted(s, rows);
    assert |t.free| == 0 && |Returning(t)| == |s.transit| + |s.held|;
    JobsOfRows(rows);
    RequestCount(s.queueing);
    assert |AllRequests(t)| == |RequestsOf(t.camera)| + |RequestsOf(t.queueing)|;
  }

  lemma {:induction false} RequestCount(jobs: seq<Job>)
    ensures |RequestsOf(jobs)| == |jobs|
  {
    if jobs != [] {
      RequestCount(jobs[..|jobs| - 1]);
    }
  }
}
