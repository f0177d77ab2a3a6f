/** LibcameraApp: making the requests, and the methods that move them round. */
module LibcameraApp {
  import opened Seqs
  import opened RequestLoop
  import opened Wrappers

  // ----- makeRequests -----

  /** The buffers of a stream; a stream without any has an empty queue. */
  function Queue(buffers: map<Stream, seq<Buffer>>, s: Stream): seq<Buffer> {
    if s in buffers then buffers[s] else []
  }

  predicate Distinct(config: seq<Stream>) {
    forall i, j :: 0 <= i < j < |config| ==> config[i] != config[j]
  }

  /** Request k gets the k-th buffer of every stream. */
  predicate IsRow(row: BufferMap, config: seq<Stream>, buffers: map<Stream, seq<Buffer>>, k: nat) {
    row.Keys == (set s | s in config) &&
    forall s :: s in config ==> k < |Queue(buffers, s)| && row[s] == Queue(buffers, s)[k]
  }

  /** What is left of the queues after k buffers are popped from each of the streams. */
  predicate Popped(
    left: map<Stream, seq<Buffer>>, streams: seq<Stream>, buffers: map<Stream, seq<Buffer>>, k: nat)
  {
    forall s :: s in streams ==>
      |Queue(buffers, s)| == k + |Queue(left, s)| &&
      forall i :: 0 <= i < |Queue(left, s)| ==> Queue(left, s)[i] == Queue(buffers, s)[k + i]
  }

  /** One request: pop a buffer from every stream's queue; it fails if some queue is empty. */
  method FillRequest(
      config: seq<Stream>, free: map<Stream, seq<Buffer>>, ghost buffers: map<Stream, seq<Buffer>>, ghost k: nat)
    returns (ok: bool, free': map<Stream, seq<Buffer>>, row: BufferMap)
    requires Distinct(config) && Popped(free, config, buffers, k)
    ensures ok <==> forall s :: s in config ==> |Queue(buffers, s)| > k
    ensures ok ==> Popped(free', config, buffers, k + 1) && IsRow(row, config, buffers, k)
  {
    free', row := free, map[];
    TakeAll(config);
    for j := 0 to |config|
      invariant Popped(free', config[..j], buffers, k + 1)
      invariant forall i :: j <= i < |config| ==> Queue(free', config[i]) == Queue(free, config[i])
      invariant IsRow(row, config[..j], buffers, k)
    {
      var s := config[j];
      var queue := Queue(free', s);
      if queue == [] {
        assert s in config && |Queue(buffers, s)| == k;
        return false, free', row;
      }
      assert s in config && queue[0] == Queue(buffers, s)[k];
      RowNext(row, config, j, buffers, k);
      row := row[s := queue[0]];
      PopOne(free', config, j, buffers, k);
      free' := free'[s := queue[1..]];
    }
    ok := true;
  }

  lemma RowNext(row: BufferMap, config: seq<Stream>, j: nat, buffers: map<Stream, seq<Buffer>>, k: nat)
    requires j < |config| && IsRow(row, config[..j], buffers, k) && k < |Queue(buffers, config[j])|
    ensures IsRow(row[config[j] := Queue(buffers, config[j])[k]], config[..j + 1], buffers, k)
  {
    TakeNext(config, j);
  }

  lemma PopOne(
      free: map<Stream, seq<Buffer>>, config: seq<Stream>, j: nat, buffers: map<Stream, seq<Buffer>>, k: nat)
    requires Distinct(config) && j < |config|
    requires Popped(free, config[..j], buffers, k + 1)
    requires Popped(free, [config[j]], buffers, k) && Queue(free, config[j]) != []
    ensures Popped(free[config[j] := Queue(free, config[j])[1..]], config[..j + 1], buffers, k + 1)
  {
    var s := config[j];
    var free' := free[s := Queue(free, s)[1..]];
    assert s in [config[j]];
    forall t | t in config[..j + 1]
      ensures |Queue(buffers, t)| == k + 1 + |Queue(free', t)|
      ensures forall i :: 0 <= i < |Queue(free', t)| ==> Queue(free', t)[i] == Queue(buffers, t)[k + 1 + i]
    {
      if t != s {
        assert t in config[..j];
      } else {
        forall i | 0 <= i < |Queue(free', t)| ensures Queue(free', t)[i] == Queue(buffers, t)[k + 1 + i] {
          assert Queue(free', t)[i] == Queue(free, t)[i + 1];
        }
      }
    }
  }

  predicate AreRows(rows: seq<BufferMap>, config: seq<Stream>, buffers: map<Stream, seq<Buffer>>) {
    forall k :: 0 <= k < |rows| ==> IsRow(rows[k], config, buffers, k)
  }

  lemma RowsPush(
      rows: seq<BufferMap>, row: BufferMap, config: seq<Stream>, buffers: map<Stream, seq<Buffer>>)
    requires AreRows(rows, config, buffers) && IsRow(row, config, buffers, |rows|)
    ensures AreRows(rows + [row], config, buffers)
  {
  }

  /**
   * makeRequests: pair up the buffers of the streams, one of each for a request, until the first
   * stream has none left.  It throws if another stream has fewer than the first.
   */
  method MakeRequests(config: seq<Stream>, buffers: map<Stream, seq<Buffer>>)
    returns (ok: bool, rows: seq<BufferMap>)
    requires config != [] && Distinct(config)
    ensures ok <==> forall s :: s in config ==> |Queue(buffers, s)| >= |Queue(buffers, config[0])|
    ensures ok ==> |rows| == |Queue(buffers, config[0])|
    ensures ok ==> AreRows(rows, config, buffers)
  {
    rows := [];
    var free := buffers;
    assert config[0] in config;
    while Queue(free, config[0]) != []
      invariant Popped(free, config, buffers, |rows|)
      invariant AreRows(rows, config, buffers)
      invariant forall s :: s in config ==> |Queue(buffers, s)| >= |rows|
      decreases |Queue(free, config[0])|
    {
      var row;
      ok, free, row := FillRequest(config, free, buffers, |rows|);
      if !ok {
        return;
      }
      RowsPush(rows, row, config, buffers);
      rows := rows + [row];
    }
    ok := true;
  }

  /** No buffer is in two queues or twice in one. */
  predicate BuffersDistinct(config: seq<Stream>, buffers: map<Stream, seq<Buffer>>) {
    forall s, t :: s in config && t in config ==> Apart(Queue(buffers, s), Queue(buffers, t), s == t)
  }

  /** Two queues have no buffer in common, or are one queue that has none twice. */
  predicate Apart(q: seq<Buffer>, r: seq<Buffer>, same: bool) {
    forall i, j :: 0 <= i < |q| && 0 <= j < |r| && q[i] == r[j] ==> same && i == j
  }

  /** Two buffer sets that makeRequests pairs share no buffer. */
  lemma RowsShareNothing(
      a: BufferMap, b: BufferMap, config: seq<Stream>, buffers: map<Stream, seq<Buffer>>, i: nat, j: nat)
    requires BuffersDistinct(config, buffers)
    requires IsRow(a, config, buffers, i) && IsRow(b, config, buffers, j) && i != j
    ensures !Shares(a, b)
  {
    forall x, y | x in a && y in b ensures a[x] != b[y] {
      assert x in config && y in config;
      assert Apart(Queue(buffers, x), Queue(buffers, y), x == y);
    }
  }

  lemma RowsDiffer(
      a: BufferMap, b: BufferMap, config: seq<Stream>, buffers: map<Stream, seq<Buffer>>, i: nat, j: nat)
    requires config != [] && BuffersDistinct(config, buffers)
    requires IsRow(a, config, buffers, i) && IsRow(b, config, buffers, j) && i != j
    ensures a != b
  {
    var s := config[0];
    assert s in config;
    assert Apart(Queue(buffers, s), Queue(buffers, s), true);
  }

  /** The k-th row is none of those before it, so each row is there once. */
  lemma {:induction false} OneOfEach(
      rows: seq<BufferMap>, config: seq<Stream>, buffers: map<Stream, seq<Buffer>>, a: BufferMap)
    requires config != [] && BuffersDistinct(config, buffers) && AreRows(rows, config, buffers)
    ensures multiset(rows)[a] <= 1
  {
    if rows != [] {
      var n := |rows| - 1;
      TakeNext(rows, n);
      TakeAll(rows);
      OneOfEach(rows[..n], config, buffers, a);
      if a == rows[n] && a in rows[..n] {
        var i :| 0 <= i < n && rows[..n][i] == a;
        RowsDiffer(rows[i], rows[n], config, buffers, i, n);
      }
    }
  }

  lemma TwoRows(
      rows: seq<BufferMap>, config: seq<Stream>, buffers: map<Stream, seq<Buffer>>, a: BufferMap, b: BufferMap)
    requires config != [] && BuffersDistinct(config, buffers) && AreRows(rows, config, buffers)
    requires a in rows && b in rows && a != b
    ensures !Shares(a, b)
  {
    var i :| 0 <= i < |rows| && rows[i] == a;
    var j :| 0 <= j < |rows| && rows[j] == b;
    RowsShareNothing(a, b, config, buffers, i, j);
  }

  lemma RowsAreDisjoint(rows: seq<BufferMap>, config: seq<Stream>, buffers: map<Stream, seq<Buffer>>)
    requires config != [] && BuffersDistinct(config, buffers) && AreRows(rows, config, buffers)
    ensures Disjoint(multiset(rows))
  {
    forall a, b | a in multiset(rows) && b in multiset(rows)
      ensures multiset(rows)[a] == 1 && (a == b || !Shares(a, b))
    {
      ApartInRows(rows, config, buffers, a, b);
    }
  }

  lemma ApartInRows(
      rows: seq<BufferMap>, config: seq<Stream>, buffers: map<Stream, seq<Buffer>>, a: BufferMap, b: BufferMap)
    requires config != [] && BuffersDistinct(config, buffers) && AreRows(rows, config, buffers)
    requires a in multiset(rows) && b in multiset(rows)
    ensures multiset(rows)[a] == 1 && (a == b || !Shares(a, b))
  {
    OneOfEach(rows, config, buffers, a);
    if a != b {
      TwoRows(rows, config, buffers, a, b);
    }
  }

  /** What makeRequests makes is a good start for the circulation. */
  lemma RowsStartTheLoop(
      rows: seq<BufferMap>, config: seq<Stream>, buffers: map<Stream, seq<Buffer>>)
    requires config != [] && BuffersDistinct(config, buffers) && AreRows(rows, config, buffers)
    ensures Inv(Started(rows), Requests(|rows|), multiset(rows)) && Disjoint(multiset(rows))
  {
    StartedInv(rows);
    RowsAreDisjoint(rows, config, buffers);
  }

  // ----- the buffers of each request -----

  /**
   * `own` are the buffers that the Request objects hold: a request with the camera has those it was
   * submitted with, any other one has none; and there are just these requests, each in one place.
   */
  ghost predicate Coupled(loop: Loop, own: map<Request, BufferMap>, requests: multiset<Request>) {
    && AllRequests(loop) == requests && EachOnce(requests)
    && AllEmpty(loop.free, own) && AllHold(loop.queueing, own, true) && AllHold(loop.camera, own, false)
  }

  ghost predicate EachOnce(requests: multiset<Request>) {
    forall r :: requests[r] <= 1
  }

  predicate AllEmpty(free: seq<Request>, own: map<Request, BufferMap>) {
    free == [] ||
    var n := |free| - 1;
    free[n] in own && own[free[n]] == map[] && AllEmpty(free[..n], own)
  }

  predicate AllHold(jobs: seq<Job>, own: map<Request, BufferMap>, empty: bool) {
    jobs == [] ||
    var n := |jobs| - 1;
    var j := jobs[n];
    j.request in own && own[j.request] == (if empty then map[] else j.buffers) && AllHold(jobs[..n], own, empty)
  }

  lemma HoldPush(jobs: seq<Job>, own: map<Request, BufferMap>, empty: bool, j: Job)
    requires AllHold(jobs, own, empty) && j.request in own && own[j.request] == if empty then map[] else j.buffers
    ensures AllHold(jobs + [j], own, empty)
  {
    InitLast(jobs, j);
  }

  lemma {:induction false} HoldAt(jobs: seq<Job>, own: map<Request, BufferMap>, empty: bool, i: nat)
    requires AllHold(jobs, own, empty) && i < |jobs|
    ensures jobs[i].request in own && own[jobs[i].request] == if empty then map[] else jobs[i].buffers
  {
    if i < |jobs| - 1 {
      HoldAt(jobs[..|jobs| - 1], own, empty, i);
    }
  }

  lemma {:induction false} HoldWithout(jobs: seq<Job>, own: map<Request, BufferMap>, empty: bool, i: nat)
    requires AllHold(jobs, own, empty) && i < |jobs|
    ensures AllHold(Without(jobs, i), own, empty)
  {
    var n := |jobs| - 1;
    if i == n {
      assert Without(jobs, i) == jobs[..n];
    } else {
      HoldWithout(jobs[..n], own, empty, i);
      assert Without(jobs, i) == Without(jobs[..n], i) + [jobs[n]];
      HoldPush(Without(jobs[..n], i), own, empty, jobs[n]);
    }
  }

  /** Changing what a request holds changes nothing for jobs that are not its own. */
  lemma {:induction false} OthersHold(
      jobs: seq<Job>, own: map<Request, BufferMap>, empty: bool, r: Request, buffers: BufferMap)
    requires AllHold(jobs, own, empty) && RequestsOf(jobs)[r] == 0
    ensures AllHold(jobs, own[r := buffers], empty)
  {
    if jobs != [] {
      OthersHold(jobs[..|jobs| - 1], own, empty, r, buffers);
    }
  }

  lemma {:induction false} EmptyPush(free: seq<Request>, own: map<Request, BufferMap>, r: Request)
    requires AllEmpty(free, own)
    ensures AllEmpty(free + [r], own[r := map[]])
  {
    if free != [] {
      EmptyPush(free[..|free| - 1], own, r);
      InitLast(free[..|free| - 1], r);
    }
    InitLast(free, r);
  }

  lemma {:induction false} EmptyTail(free: seq<Request>, own: map<Request, BufferMap>)
    requires AllEmpty(free, own) && free != []
    ensures free[0] in own && own[free[0]] == map[] && AllEmpty(free[1..], own)
  {
    if |free| > 1 {
      EmptyTail(free[..|free| - 1], own);
      assert free[1..][..|free| - 2] == free[..|free| - 1][1..];
    }
  }

  lemma {:induction false} EmptyOthers(free: seq<Request>, own: map<Request, BufferMap>, r: Request, buffers: BufferMap)
    requires AllEmpty(free, own) && multiset(free)[r] == 0
    ensures AllEmpty(free, own[r := buffers])
  {
    if free != [] {
      var n := |free| - 1;
      assert free == free[..n] + [free[n]];
      MultisetConcat(free[..n], [free[n]]);
      EmptyOthers(free[..n], own, r, buffers);
    }
  }

  /** A request that is in one place is in no other. */
  lemma OnlyThere(loop: Loop, requests: multiset<Request>, r: Request)
    requires AllRequests(loop) == requests && EachOnce(requests)
    ensures RequestsOf(loop.camera)[r] > 0 ==> RequestsOf(loop.camera)[r] == 1 && RequestsOf(loop.queueing)[r] == 0
    ensures RequestsOf(loop.queueing)[r] > 0 ==>
      RequestsOf(loop.queueing)[r] == 1 && RequestsOf(loop.camera)[r] == multiset(loop.free)[r] == 0
  {
    assert requests[r] <= 1;
    assert AllRequests(loop)[r] == multiset(loop.free)[r] + RequestsOf(loop.camera)[r] + RequestsOf(loop.queueing)[r];
  }

  lemma CompleteCouples(
      loop: Loop, own: map<Request, BufferMap>, requests: multiset<Request>, i: nat)
    requires Coupled(loop, own, requests) && i < |loop.camera|
    ensures loop.camera[i].request in own && own[loop.camera[i].request] == loop.camera[i].buffers
    ensures Coupled(Step(loop, Complete(i)), own[loop.camera[i].request := map[]], requests)
  {
    var r := loop.camera[i].request;
    HoldAt(loop.camera, own, false, i);
    CompleteKeeps(loop, i);
    JobsWithout(loop.camera, i);
    OnlyThere(loop, requests, r);
    HoldWithout(loop.camera, own, false, i);
    OthersHold(Without(loop.camera, i), own, false, r, map[]);
    OthersHold(loop.queueing, own, true, r, map[]);
    EmptyPush(loop.free, own, r);
  }

  lemma TakeCouples(
      loop: Loop, own: map<Request, BufferMap>, requests: multiset<Request>, b: BufferMap)
    requires Coupled(loop, own, requests) && b in loop.held
    ensures Coupled(Step(loop, Take(b)), own, requests)
  {
    if loop.free != [] {
      TakeRequests(loop, b);
      EmptyTail(loop.free, own);
      HoldPush(loop.queueing, own, true, Job(loop.free[0], b));
    }
  }

  lemma SubmitCouples(loop: Loop, own: map<Request, BufferMap>, requests: multiset<Request>, i: nat)
    requires Coupled(loop, own, requests) && i < |loop.queueing|
    ensures loop.queueing[i].request in own && own[loop.queueing[i].request] == map[]
    ensures Coupled(Step(loop, Submit(i)), own[loop.queueing[i].request := loop.queueing[i].buffers], requests)
  {
    var j := loop.queueing[i];
    HoldAt(loop.queueing, own, true, i);
    SubmitKeeps(loop, i);
    JobsWithout(loop.queueing, i);
    OnlyThere(loop, requests, j.request);
    OthersHold(loop.camera, own, false, j.request, j.buffers);
    HoldPush(loop.camera, own[j.request := j.buffers], false, j);
    HoldWithout(loop.queueing, own, true, i);
    OthersHold(Without(loop.queueing, i), own, true, j.request, j.buffers);
    EmptyOthers(loop.free, own, j.request, j.buffers);
  }

  lemma {:induction false} RequestsOnce(n: nat, r: Request)
    ensures Requests(n)[r] == if r < n then 1 else 0
  {
    if n > 0 {
      RequestsOnce(n - 1, r);
    }
  }

  /** The buffers of the requests that makeRequests has made. */
  function OwnOf(rows: seq<BufferMap>): map<Request, BufferMap> {
    if rows == [] then map[] else OwnOf(rows[..|rows| - 1])[|rows| - 1 := rows[|rows| - 1]]
  }

  lemma {:induction false} RowsHold(rows: seq<BufferMap>)
    ensures AllHold(Jobs(rows), OwnOf(rows), false)
  {
    if rows != [] {
      var n := |rows| - 1;
      RowsHold(rows[..n]);
      JobsOfRows(rows[..n]);
      RequestsOnce(n, n);
      OthersHold(Jobs(rows[..n]), OwnOf(rows[..n]), false, n, rows[n]);
      HoldPush(Jobs(rows[..n]), OwnOf(rows), false, Job(n, rows[n]));
    }
  }

  lemma StartedCouples(rows: seq<BufferMap>)
    ensures Coupled(Started(rows), OwnOf(rows), Requests(|rows|))
  {
    RowsHold(rows);
    JobsOfRows(rows);
    forall r ensures Requests(|rows|)[r] <= 1 {
      RequestsOnce(|rows|, r);
    }
    assert AllRequests(Started(rows)) == Requests(|rows|);
  }

  /**
   * Over a run the requests go on holding what they should: a completed request is reused and so has
   * no buffers, none is added to it while it is free, and a submitted one gets its own.
   */
  function OwnAfter(loop: Loop, own: map<Request, BufferMap>, e: Event): map<Request, BufferMap>
    requires Enabled(loop, e)
  {
    match e
    case Complete(i) => own[loop.camera[i].request := map[]]
    case Submit(i) =>
      var j := loop.queueing[i];
      own[j.request := (if j.request in own then own[j.request] else map[]) + j.buffers]
    case _ => own
  }

  lemma StepCouples(loop: Loop, own: map<Request, BufferMap>, requests: multiset<Request>, e: Event)
    requires Coupled(loop, own, requests) && Enabled(loop, e)
    ensures Coupled(Step(loop, e), OwnAfter(loop, own, e), requests)
  {
    match e
    case Complete(i) => CompleteCouples(loop, own, requests, i);
    case Take(b) => TakeCouples(loop, own, requests, b);
    case Submit(i) =>
      SubmitCouples(loop, own, requests, i);
      SubmittedOwn(loop, own, i);
    case _ => OthersCouple(loop, own, requests, e);
  }

  lemma SubmittedOwn(loop: Loop, own: map<Request, BufferMap>, i: nat)
    requires i < |loop.queueing| && loop.queueing[i].request in own && own[loop.queueing[i].request] == map[]
    ensures OwnAfter(loop, own, Submit(i)) == own[loop.queueing[i].request := loop.queueing[i].buffers]
  {
    assert map[] + loop.queueing[i].buffers == loop.queueing[i].buffers;
  }

  /** All other steps move messages about. */
  lemma OthersCouple(loop: Loop, own: map<Request, BufferMap>, requests: multiset<Request>, e: Event)
    requires Coupled(loop, own, requests) && Enabled(loop, e) && !e.Complete? && !e.Take? && !e.Submit?
    ensures Coupled(Step(loop, e), OwnAfter(loop, own, e), requests)
  {
    var t := Step(loop, e);
    assert t.free == loop.free && t.camera == loop.camera && t.queueing == loop.queueing;
    assert AllRequests(t) == AllRequests(loop);
  }

  function OwnAtEnd(loop: Loop, own: map<Request, BufferMap>, es: seq<Event>): map<Request, BufferMap>
    requires Runs(loop, es)
    decreases es
  {
    if es == [] then own else OwnAtEnd(Step(loop, es[0]), OwnAfter(loop, own, es[0]), es[1..])
  }

  lemma {:induction false} RunCouples(
      loop: Loop, own: map<Request, BufferMap>, requests: multiset<Request>, es: seq<Event>)
    requires Coupled(loop, own, requests) && Runs(loop, es)
    ensures Coupled(Final(loop, es), OwnAtEnd(loop, own, es), requests)
    decreases es
  {
    if es != [] {
      StepCouples(loop, own, requests, es[0]);
      RunCouples(Step(loop, es[0]), OwnAfter(loop, own, es[0]), requests, es[1..]);
    }
  }

  /**
   * In every run from the start a request being queued holds no buffers, so adding the ones handed
   * back never fails; and a request with the camera holds exactly those it was submitted with.
   */
  lemma AddingNeverFails(rows: seq<BufferMap>, es: seq<Event>, i: nat)
    requires Runs(Started(rows), es)
    ensures var loop, own := Final(Started(rows), es), OwnAtEnd(Started(rows), OwnOf(rows), es);
      && (i < |loop.queueing| ==> loop.queueing[i].request in own && own[loop.queueing[i].request] == map[])
      && (i < |loop.camera| ==>
            loop.camera[i].request in own && own[loop.camera[i].request] == loop.camera[i].buffers)
  {
    StartedCouples(rows);
    RunCouples(Started(rows), OwnOf(rows), Requests(|rows|), es);
    var loop, own := Final(Started(rows), es), OwnAtEnd(Started(rows), OwnOf(rows), es);
    if i < |loop.queueing| {
      HoldAt(loop.queueing, own, true, i);
    }
    if i < |loop.camera| {
      HoldAt(loop.camera, own, false, i);
    }
  }

  // ----- the queues -----

  class App {
    var free: seq<Request>               // free_requests_
    var messages: seq<BufferMap>         // msg_queue_
    var own: map<Request, BufferMap>     // the buffers added to each request
    ghost var loop: Loop                 // these queues, and where everything else is

    ghost predicate Valid()
      reads this
    {
      loop.free == free && loop.messages == messages
    }

    /** The requests of makeRequests are with the camera. */
    constructor (rows: seq<BufferMap>)
      ensures Valid() && loop == Started(rows) && own == OwnOf(rows)
    {
      free, messages, own := [], [], OwnOf(rows);
      loop := Started(rows);
    }

    /**
     * requestComplete, up to the end of the locked region: the request's buffers are copied, then it
     * is reused, without buffers, and free again.
     */
    method FreeRequest(request: Request, ghost i: nat) returns (payload: BufferMap)
      requires Valid() && i < |loop.camera| && loop.camera[i].request == request && request in own
      modifies this
      ensures Valid() && loop == Step(old(loop), Complete(i))
      ensures payload == old(own)[request] && own == old(own)[request := map[]]
      ensures free == old(free) + [request] && messages == old(messages)
    {
      payload := own[request];
      own := own[request := map[]];
      free := free + [request];
      loop := Step(loop, Complete(i));
    }

    /** MessageQueue::Post of the buffers that requestComplete saved before it freed the request. */
    method PostMessage(buffers: BufferMap)
      requires Valid() && buffers in loop.transit
      modifies this
      ensures Valid() && loop == Step(old(loop), Post(buffers)) && own == old(own)
      ensures messages == old(messages) + [buffers] && free == old(free)
    {
      messages := messages + [buffers];
      loop := Step(loop, Post(buffers));
    }

    /** MessageQueue::Wait, once there is a message. */
    method WaitMessage() returns (buffers: BufferMap)
      requires Valid() && messages != []
      modifies this
      ensures Valid() && loop == Step(old(loop), Wait) && own == old(own)
      ensures [buffers] + messages == old(messages) && free == old(free) && buffers in loop.held
    {
      buffers := messages[0];
      loop := Step(loop, Wait);
      messages := messages[1..];
    }

    /** QueueRequest, first half: take a free request, or none with a warning. */
    method TakeRequest(buffers: BufferMap) returns (request: Option<Request>)
      requires Valid() && buffers in loop.held
      modifies this
      ensures Valid() && loop == Step(old(loop), Take(buffers)) && own == old(own)
      ensures if request == None then free == old(free) == [] else [request.value] + free == old(free)
      ensures messages == old(messages)
    {
      request := None;
      loop := Step(loop, Take(buffers));
      if free != [] {
        request := Some(free[0]);
        free := free[1..];
      }
    }

    /**
     * QueueRequest, second half: each buffer is added to the taken request, which throws if it has
     * one for the stream already; then the request goes to the camera.
     */
    method SubmitRequest(request: Request, buffers: BufferMap, ghost i: nat) returns (thrown: bool)
      requires Valid() && i < |loop.queueing| && loop.queueing[i] == Job(request, buffers) && request in own
      modifies this
      ensures Valid() && (thrown <==> old(own)[request].Keys * buffers.Keys != {})
      ensures if thrown then loop == old(loop)
        else loop == Step(old(loop), Submit(i)) && own == old(own)[request := old(own)[request] + buffers]
    {
      var filled;
      thrown, filled := AddBuffers(own[request], buffers);
      own := own[request := filled];
      if !thrown {
        loop := Step(loop, Submit(i));
      }
    }

    /** StopCamera: clear the message queue, the free list and the requests. */
    method StopCamera()
      requires Valid()
      modifies this
      ensures Valid() && loop == Restarted(old(loop), []) && own == old(own)
      ensures messages == [] && free == []
    {
      messages, free := [], [];
      loop := Restarted(loop, []);
    }
  }

  /** The buffers that are not in `rest` have been added. */
  ghost predicate Filling(own: BufferMap, buffers: BufferMap, rest: set<Stream>, filled: BufferMap) {
    && rest <= buffers.Keys && own.Keys * (buffers.Keys - rest) == {}
    && filled == own + (buffers - rest)
  }

  lemma FillOne(own: BufferMap, buffers: BufferMap, rest: set<Stream>, filled: BufferMap, s: Stream)
    requires Filling(own, buffers, rest, filled) && s in rest
    ensures s in filled <==> s in own
    ensures s !in own ==> Filling(own, buffers, rest - {s}, filled[s := buffers[s]])
  {
    if s !in own {
      assert buffers - (rest - {s}) == (buffers - rest)[s := buffers[s]];
    }
  }

  /** addBuffer for each buffer; it fails when the request has one for that stream already. */
  method AddBuffers(own: BufferMap, buffers: BufferMap) returns (thrown: bool, filled: BufferMap)
    ensures thrown <==> own.Keys * buffers.Keys != {}
    ensures !thrown ==> filled == own + buffers
  {
    thrown, filled := false, own;
    var rest := buffers.Keys;
    assert own + (buffers - rest) == own;
    while rest != {}
      invariant Filling(own, buffers, rest, filled)
      decreases rest
    {
      var s :| s in rest;
      FillOne(own, buffers, rest, filled, s);
      if s in filled {
        assert s in own.Keys * buffers.Keys;
        return true, filled;
      }
      filled := filled[s := buffers[s]];
      rest := rest - {s};
    }
    assert buffers - {} == buffers;
  }
}
