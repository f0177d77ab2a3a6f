/**
 * The buffers of the H.264 encoder.  Input buffers go round between the caller and the device,
 * capture buffers between the device and the application; buffers are named by their indices, and
 * the steps of the caller, the device, the polling thread and the application interleave in any
 * order.
 */
module EncoderQueues {
  import opened Machine
  import opened Seqs

  const MILLION := 1000000

  // ----- time stamps -----

  /** A `timeval`. */
  datatype Time = Time(sec: I64, usec: I64)

  /** Division as C does it, towards zero. */
  function TruncDiv(a: int, b: int): int
    requires b > 0
  {
    if a >= 0 then a / b else 0 - (0 - a) / b
  }

  function TruncMod(a: int, b: int): int
    requires b > 0
  {
    a - b * TruncDiv(a, b)
  }

  lemma TruncBounds(a: I64)
    ensures -0x8000_0000_0000_0000 <= TruncDiv(a, MILLION) < 0x8000_0000_0000_0000
    ensures -MILLION < TruncMod(a, MILLION) < MILLION
    ensures a >= 0 ==> TruncMod(a, MILLION) >= 0
    ensures a <= 0 ==> TruncMod(a, MILLION) <= 0
  {
  }

  /** EncodeBuffer's time stamp for the device; `narrow` says that `time_t` has 32 bits. */
  function Split(us: I64, narrow: bool): Time {
    TruncBounds(us);
    var sec: I64 := TruncDiv(us, MILLION);
    Time(if narrow then ToI32(sec) else sec, TruncMod(us, MILLION))
  }

  /** The two parts make up the time stamp, the microseconds less than a second and of its sign. */
  lemma SplitIsTimeval(us: I64)
    ensures var t := Split(us, false);
      && t.sec * 1000000 + t.usec == us && -1000000 < t.usec < 1000000
      && (us >= 0 ==> t.sec >= 0 && t.usec >= 0) && (us <= 0 ==> t.sec <= 0 && t.usec <= 0)
    ensures Split(us, true).usec == Split(us, false).usec
    ensures (Split(us, false).sec - Split(us, true).sec) % 0x1_0000_0000 == 0
  {
    TruncBounds(us);
  }

  /** pollThread's time stamp for the application. */
  function Join(t: Time): I64 {
    ToI64(t.sec * MILLION + t.usec)
  }

  function Echo(us: I64, narrow: bool): I64 {
    Join(Split(us, narrow))
  }

  /** Whether the seconds fit the device's time stamp. */
  predicate Fits(us: I64, narrow: bool) {
    narrow ==> -0x8000_0000 <= TruncDiv(us, MILLION) < 0x8000_0000
  }

  lemma ToI64Same(x: int)
    requires -0x8000_0000_0000_0000 <= x < 0x8000_0000_0000_0000
    ensures ToI64(x) == x
  {
  }

  lemma ToI32Same(x: int)
    ensures ToI32(x) == x <==> -0x8000_0000 <= x < 0x8000_0000
  {
  }

  /** Seconds of 32 bits and microseconds below a million make a number of 64 bits. */
  lemma NarrowJoin(sec: I32, usec: int)
    requires -MILLION < usec < MILLION
    ensures ToI64(sec * MILLION + usec) == sec * MILLION + usec
  {
    ToI64Same(sec * MILLION + usec);
  }

  lemma NarrowEcho(us: I64, sec: int, usec: int)
    requires us == sec * MILLION + usec && -MILLION < usec < MILLION
    requires -0x8000_0000_0000_0000 <= sec < 0x8000_0000_0000_0000
    ensures Join(Time(ToI32(sec), usec)) == us <==> -0x8000_0000 <= sec < 0x8000_0000
  {
    ToI32Same(sec);
    NarrowJoin(ToI32(sec), usec);
  }

  lemma WideEcho(us: I64, sec: I64, usec: I64)
    requires us == sec * MILLION + usec
    ensures Join(Time(sec, usec)) == us
  {
    ToI64Same(us);
  }

  /** Splitting and joining gives any time stamp back, negative ones too, exactly if its seconds fit. */
  lemma EchoIsSame(us: I64, narrow: bool)
    ensures Echo(us, narrow) == us <==> Fits(us, narrow)
  {
    TruncBounds(us);
    var sec, usec := TruncDiv(us, MILLION), TruncMod(us, MILLION);
    if narrow {
      assert Split(us, true) == Time(ToI32(sec), usec);
      NarrowEcho(us, sec, usec);
    } else {
      assert Split(us, false) == Time(sec, usec);
      WideEcho(us, sec, usec);
    }
  }

  // ----- where the buffers are -----

  /** A frame for the device, and one from it. */
  datatype Input = Input(index: nat, us: I64)
  datatype Job = Job(index: nat, time: Time)
  datatype Item = Item(index: nat, us: I64)

  datatype Inputs = Inputs(
    available: seq<nat>,       // input_buffers_available_
    inHand: seq<Input>,        // taken by EncodeBuffer, not queued yet
    pending: seq<Job>,         // with the device, to be encoded
    done: multiset<nat>,       // with the device, to be dequeued
    refused: multiset<nat>)    // the device did not take them

  datatype Outputs = Outputs(
    empty: multiset<nat>,      // with the device, to be filled
    encoded: seq<Job>,         // with the device, to be dequeued
    queue: seq<Item>,          // output_queue_
    held: seq<Item>,           // with the application
    refused: multiset<nat>)

  datatype Encoder = Encoder(ins: Inputs, outs: Outputs, narrow: bool)

  datatype Event =
    | Take(us: I64)                       // EncodeBuffer takes an available buffer, or throws
    | Submit(k: nat, accepted: bool)      // and queues it
    | Encode(k: nat, c: nat)              // the device encodes a pending frame into buffer c
    | ReturnInput(i: nat)                 // pollThread, first half
    | Collect(k: nat)                     // pollThread, second half
    | GetOutput
    | OutputDone(k: nat, accepted: bool)

  predicate Enabled(s: Encoder, e: Event) {
    match e
    case Take(_) => true
    case Submit(k, _) => k < |s.ins.inHand|
    case Encode(k, c) => k < |s.ins.pending| && c in s.outs.empty
    case ReturnInput(i) => i in s.ins.done
    case Collect(k) => k < |s.outs.encoded|
    case GetOutput => s.outs.queue != []
    case OutputDone(k, _) => k < |s.outs.held|
  }

  function StepIns(ins: Inputs, e: Event, narrow: bool): Inputs
    requires e.Submit? ==> e.k < |ins.inHand|
    requires e.Encode? ==> e.k < |ins.pending|
  {
    match e
    case Take(us) =>
      if ins.available == [] then ins
      else ins.(available := ins.available[1..], inHand := ins.inHand + [Input(ins.available[0], us)])
    case Submit(k, accepted) =>
      var x := ins.inHand[k];
      if accepted then
        ins.(inHand := Without(ins.inHand, k), pending := ins.pending + [Job(x.index, Split(x.us, narrow))])
      else ins.(inHand := Without(ins.inHand, k), refused := ins.refused + multiset{x.index})
    case Encode(k, _) =>
      ins.(pending := Without(ins.pending, k), done := ins.done + multiset{ins.pending[k].index})
    case ReturnInput(i) => ins.(done := ins.done - multiset{i}, available := ins.available + [i])
    case _ => ins
  }

  function StepOuts(outs: Outputs, e: Event, time: Time): Outputs
    requires e.Collect? ==> e.k < |outs.encoded|
    requires e.GetOutput? ==> outs.queue != []
    requires e.OutputDone? ==> e.k < |outs.held|
  {
    match e
    case Encode(_, c) => outs.(empty := outs.empty - multiset{c}, encoded := outs.encoded + [Job(c, time)])
    case Collect(k) =>
      var j := outs.encoded[k];
      outs.(encoded := Without(outs.encoded, k), queue := outs.queue + [Item(j.index, Join(j.time))])
    case GetOutput => outs.(queue := outs.queue[1..], held := outs.held + [outs.queue[0]])
    case OutputDone(k, accepted) =>
      var i := outs.held[k].index;
      if accepted then outs.(held := Without(outs.held, k), empty := outs.empty + multiset{i})
      else outs.(held := Without(outs.held, k), refused := outs.refused + multiset{i})
    case _ => outs
  }

  function Step(s: Encoder, e: Event): Encoder
    requires Enabled(s, e)
  {
    var time := if e.Encode? then s.ins.pending[e.k].time else Time(0, 0);
    Encoder(StepIns(s.ins, e, s.narrow), StepOuts(s.outs, e, time), s.narrow)
  }

  predicate Runs(s: Encoder, es: seq<Event>)
    decreases es
  {
    es == [] || (Enabled(s, es[0]) && Runs(Step(s, es[0]), es[1..]))
  }

  function Final(s: Encoder, es: seq<Event>): Encoder
    requires Runs(s, es)
    decreases es
  {
    if es == [] then s else Final(Step(s, es[0]), es[1..])
  }

  function Upto(n: nat): (s: seq<nat>)
    ensures |s| == n
  {
    if n == 0 then [] else Upto(n - 1) + [n - 1]
  }

  /** After the constructor: all input buffers available, all capture buffers queued to the device. */
  function Opened(inputs: nat, captures: nat, narrow: bool): Encoder {
    Encoder(Inputs(Upto(inputs), [], [], multiset{}, multiset{}),
            Outputs(multiset(Upto(captures)), [], [], [], multiset{}), narrow)
  }

  // ----- every buffer is in one place -----

  function InputIndices(xs: seq<Input>): seq<nat> {
    seq(|xs|, k requires 0 <= k < |xs| => xs[k].index)
  }

  function JobIndices(xs: seq<Job>): seq<nat> {
    seq(|xs|, k requires 0 <= k < |xs| => xs[k].index)
  }

  function ItemIndices(xs: seq<Item>): seq<nat> {
    seq(|xs|, k requires 0 <= k < |xs| => xs[k].index)
  }

  function InCount(s: Inputs, i: nat): nat {
    multiset(s.available)[i] + multiset(InputIndices(s.inHand))[i] + multiset(JobIndices(s.pending))[i]
    + s.done[i] + s.refused[i]
  }

  function OutCount(s: Outputs, i: nat): nat {
    s.empty[i] + multiset(JobIndices(s.encoded))[i] + multiset(ItemIndices(s.queue))[i]
    + multiset(ItemIndices(s.held))[i] + s.refused[i]
  }

  /** Each of the n input buffers and m capture buffers is in exactly one place. */
  ghost predicate Inv(s: Encoder, n: nat, m: nat) {
    && (forall i: nat :: InCount(s.ins, i) == if i < n then 1 else 0)
    && (forall i: nat :: OutCount(s.outs, i) == if i < m then 1 else 0)
  }

  function One(b: bool): nat {
    if b then 1 else 0
  }

  lemma PushCount(s: seq<nat>, x: nat, i: nat)
    ensures multiset(s + [x])[i] == multiset(s)[i] + One(i == x)
  {
    MultisetConcat(s, [x]);
  }

  lemma HeadCount(s: seq<nat>, i: nat)
    requires s != []
    ensures multiset(s)[i] == multiset(s[1..])[i] + One(i == s[0])
  {
    assert s == [s[0]] + s[1..];
  }

  lemma WithoutCount(s: seq<nat>, k: nat, i: nat)
    requires k < |s|
    ensures multiset(s)[i] == multiset(Without(s, k))[i] + One(i == s[k])
  {
    assert s == s[..k] + [s[k]] + s[k + 1..];
    MultisetConcat(s[..k] + [s[k]], s[k + 1..]);
    MultisetConcat(s[..k], [s[k]]);
    MultisetConcat(s[..k], s[k + 1..]);
  }

  lemma InputsCount(xs: seq<Input>, x: Input, k: nat, i: nat)
    ensures multiset(InputIndices(xs + [x]))[i] == multiset(InputIndices(xs))[i] + One(i == x.index)
    ensures k < |xs| ==>
      multiset(InputIndices(xs))[i] == multiset(InputIndices(Without(xs, k)))[i] + One(i == xs[k].index)
  {
    assert InputIndices(xs + [x]) == InputIndices(xs) + [x.index];
    PushCount(InputIndices(xs), x.index, i);
    if k < |xs| {
      assert InputIndices(Without(xs, k)) == Without(InputIndices(xs), k);
      WithoutCount(InputIndices(xs), k, i);
    }
  }

  lemma JobsCount(xs: seq<Job>, x: Job, k: nat, i: nat)
    ensures multiset(JobIndices(xs + [x]))[i] == multiset(JobIndices(xs))[i] + One(i == x.index)
    ensures k < |xs| ==>
      multiset(JobIndices(xs))[i] == multiset(JobIndices(Without(xs, k)))[i] + One(i == xs[k].index)
  {
    assert JobIndices(xs + [x]) == JobIndices(xs) + [x.index];
    PushCount(JobIndices(xs), x.index, i);
    if k < |xs| {
      assert JobIndices(Without(xs, k)) == Without(JobIndices(xs), k);
      WithoutCount(JobIndices(xs), k, i);
    }
  }

  lemma ItemsCount(xs: seq<Item>, x: Item, k: nat, i: nat)
    ensures multiset(ItemIndices(xs + [x]))[i] == multiset(ItemIndices(xs))[i] + One(i == x.index)
    ensures k < |xs| ==>
      multiset(ItemIndices(xs))[i] == multiset(ItemIndices(Without(xs, k)))[i] + One(i == xs[k].index)
  {
    assert ItemIndices(xs + [x]) == ItemIndices(xs) + [x.index];
    PushCount(ItemIndices(xs), x.index, i);
    if k < |xs| {
      assert ItemIndices(Without(xs, k)) == Without(ItemIndices(xs), k);
      WithoutCount(ItemIndices(xs), k, i);
    }
  }

  lemma TakeKeeps(ins: Inputs, us: I64, narrow: bool, i: nat)
    ensures InCount(StepIns(ins, Take(us), narrow), i) == InCount(ins, i)
  {
    if ins.available != [] {
      HeadCount(ins.available, i);
      InputsCount(ins.inHand, Input(ins.available[0], us), 0, i);
    }
  }

  lemma SubmitKeeps(ins: Inputs, k: nat, accepted: bool, narrow: bool, i: nat)
    requires k < |ins.inHand|
    ensures InCount(StepIns(ins, Submit(k, accepted), narrow), i) == InCount(ins, i)
  {
    var x := ins.inHand[k];
    InputsCount(ins.inHand, x, k, i);
    JobsCount(ins.pending, Job(x.index, Split(x.us, narrow)), 0, i);
  }

  lemma StepKeepsInput(s: Encoder, e: Event, i: nat)
    requires Enabled(s, e)
    ensures InCount(Step(s, e).ins, i) == InCount(s.ins, i)
  {
    var ins := s.ins;
    match e
    case Take(us) => TakeKeeps(ins, us, s.narrow, i);
    case Submit(k, accepted) => SubmitKeeps(ins, k, accepted, s.narrow, i);
    case Encode(k, _) => JobsCount(ins.pending, ins.pending[k], k, i);
    case ReturnInput(j) => PushCount(ins.available, j, i);
    case _ =>
  }

  lemma CollectKeeps(outs: Outputs, k: nat, time: Time, i: nat)
    requires k < |outs.encoded|
    ensures OutCount(StepOuts(outs, Collect(k), time), i) == OutCount(outs, i)
  {
    var j := outs.encoded[k];
    JobsCount(outs.encoded, j, k, i);
    ItemsCount(outs.queue, Item(j.index, Join(j.time)), 0, i);
  }

  lemma GetKeeps(outs: Outputs, time: Time, i: nat)
    requires outs.queue != []
    ensures OutCount(StepOuts(outs, GetOutput, time), i) == OutCount(outs, i)
  {
    assert outs.queue[1..] == Without(outs.queue, 0);
    ItemsCount(outs.queue, outs.queue[0], 0, i);
    ItemsCount(outs.held, outs.queue[0], 0, i);
  }

  lemma EncodeKeeps(outs: Outputs, k: nat, c: nat, time: Time, i: nat)
    requires c in outs.empty
    ensures OutCount(StepOuts(outs, Encode(k, c), time), i) == OutCount(outs, i)
  {
    JobsCount(outs.encoded, Job(c, time), 0, i);
  }

  lemma DoneKeeps(outs: Outputs, k: nat, accepted: bool, time: Time, i: nat)
    requires k < |outs.held|
    ensures OutCount(StepOuts(outs, OutputDone(k, accepted), time), i) == OutCount(outs, i)
  {
    ItemsCount(outs.held, outs.held[k], k, i);
  }

  lemma StepKeepsOutput(s: Encoder, e: Event, i: nat)
    requires Enabled(s, e)
    ensures OutCount(Step(s, e).outs, i) == OutCount(s.outs, i)
  {
    var outs := s.outs;
    match e
    case Encode(k, c) => EncodeKeeps(outs, k, c, s.ins.pending[k].time, i);
    case Collect(k) => CollectKeeps(outs, k, Time(0, 0), i);
    case GetOutput => GetKeeps(outs, Time(0, 0), i);
    case OutputDone(k, accepted) => DoneKeeps(outs, k, accepted, Time(0, 0), i);
    case _ =>
  }

  lemma StepKeeps(s: Encoder, e: Event, n: nat, m: nat)
    requires Inv(s, n, m) && Enabled(s, e)
    ensures Inv(Step(s, e), n, m)
  {
    forall i: nat ensures InCount(Step(s, e).ins, i) == if i < n then 1 else 0 {
      StepKeepsInput(s, e, i);
    }
    forall i: nat ensures OutCount(Step(s, e).outs, i) == if i < m then 1 else 0 {
      StepKeepsOutput(s, e, i);
    }
  }

  lemma {:induction false} UptoOnce(n: nat, i: nat)
    ensures multiset(Upto(n))[i] == if i < n then 1 else 0
  {
    if n > 0 {
      UptoOnce(n - 1, i);
      PushCount(Upto(n - 1), n - 1, i);
    }
  }

  lemma OpenedInv(n: nat, m: nat, narrow: bool)
    ensures Inv(Opened(n, m, narrow), n, m)
  {
    forall i: nat ensures InCount(Opened(n, m, narrow).ins, i) == if i < n then 1 else 0 {
      UptoOnce(n, i);
    }
    forall i: nat ensures OutCount(Opened(n, m, narrow).outs, i) == if i < m then 1 else 0 {
      UptoOnce(m, i);
    }
  }

  lemma {:induction false} InvKept(s: Encoder, es: seq<Event>, n: nat, m: nat)
    requires Inv(s, n, m) && Runs(s, es)
    ensures Inv(Final(s, es), n, m)
    decreases es
  {
    if es != [] {
      StepKeeps(s, es[0], n, m);
      InvKept(Step(s, es[0]), es[1..], n, m);
    }
  }

  /** From the start, in every interleaving, no buffer is lost or handed to two owners. */
  lemma RunKeeps(n: nat, m: nat, narrow: bool, es: seq<Event>)
    requires Runs(Opened(n, m, narrow), es)
    ensures Inv(Final(Opened(n, m, narrow), es), n, m)
  {
    OpenedInv(n, m, narrow);
    InvKept(Opened(n, m, narrow), es, n, m);
  }

  /** A buffer that the device refuses is nowhere else, ... */
  lemma RefusedIsOut(s: Encoder, k: nat, n: nat, m: nat)
    requires Inv(s, n, m) && k < |s.ins.inHand|
    ensures var i, t := s.ins.inHand[k].index, Step(s, Submit(k, false));
      && i in t.ins.refused && i !in t.ins.available && t.ins.available == s.ins.available
      && t.ins.pending == s.ins.pending
  {
    var i, t := s.ins.inHand[k].index, Step(s, Submit(k, false));
    StepKeeps(s, Submit(k, false), n, m);
    assert InCount(t.ins, i) == if i < n then 1 else 0;
  }

  lemma StepKeepsRefused(s: Encoder, e: Event)
    requires Enabled(s, e)
    ensures s.ins.refused <= Step(s, e).ins.refused && s.outs.refused <= Step(s, e).outs.refused
  {
  }

  /** ... and it does not come back: each refusal leaves one buffer less to go round. */
  lemma {:induction false} RefusedStays(s: Encoder, es: seq<Event>)
    requires Runs(s, es)
    ensures s.ins.refused <= Final(s, es).ins.refused && s.outs.refused <= Final(s, es).outs.refused
    decreases es
  {
    if es != [] {
      StepKeepsRefused(s, es[0]);
      RefusedStays(Step(s, es[0]), es[1..]);
    }
  }

  /** EncodeBuffer finds no buffer exactly when each is in hand, with the device, or was refused. */
  lemma ThrowsWhen(s: Encoder, n: nat, m: nat)
    requires Inv(s, n, m)
    ensures s.ins.available == [] <==>
      forall i: nat :: i < n ==>
        i in InputIndices(s.ins.inHand) || i in JobIndices(s.ins.pending) || i in s.ins.done || i in s.ins.refused
  {
    if s.ins.available != [] {
      var i := s.ins.available[0];
      assert multiset(s.ins.available)[i] >= 1;
      assert InCount(s.ins, i) == if i < n then 1 else 0;
    } else {
      forall i: nat | i < n
        ensures i in InputIndices(s.ins.inHand) || i in JobIndices(s.ins.pending) || i in s.ins.done
          || i in s.ins.refused
      {
        assert InCount(s.ins, i) == 1;
      }
    }
  }

  /** A capture buffer the application gives back is the device's, if it takes it, and nobody else's. */
  lemma GivenBack(s: Encoder, k: nat, accepted: bool, n: nat, m: nat)
    requires Inv(s, n, m) && k < |s.outs.held|
    ensures var i, t := s.outs.held[k].index, Step(s, OutputDone(k, accepted));
      && Inv(t, n, m) && (i in t.outs.empty <==> accepted)
      && i !in ItemIndices(t.outs.held) && i !in ItemIndices(t.outs.queue) && i !in JobIndices(t.outs.encoded)
  {
    var i, t := s.outs.held[k].index, Step(s, OutputDone(k, accepted));
    StepKeeps(s, OutputDone(k, accepted), n, m);
    assert OutCount(t.outs, i) == if i < m then 1 else 0;
    assert (if accepted then t.outs.empty[i] else t.outs.refused[i]) >= 1;
  }
}
