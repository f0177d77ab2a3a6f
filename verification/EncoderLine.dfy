/** The time stamps of the H.264 encoder: what EncodeBuffer is given comes out again, in order. */
module EncoderLine {
  import opened EncoderQueues
  import opened Machine
  import opened Seqs

  // ----- frames come out as they went in -----

  /** The device encodes frames, and hands them out, in the order it got them. */
  predicate InTurn(es: seq<Event>) {
    es == [] || ((es[0].Encode? || es[0].Collect? ==> es[0].k == 0) && InTurn(es[1..]))
  }

  function Joined(jobs: seq<Job>): seq<I64> {
    seq(|jobs|, k requires 0 <= k < |jobs| => Join(jobs[k].time))
  }

  function Times(items: seq<Item>): seq<I64> {
    seq(|items|, k requires 0 <= k < |items| => items[k].us)
  }

  /** The time stamps under way, the oldest first. */
  function Line(s: Encoder): seq<I64> {
    Times(s.outs.queue) + Joined(s.outs.encoded) + Joined(s.ins.pending)
  }

  /** The time stamp that a step submits to the device, and the one it hands to the application. */
  function Entering(s: Encoder, e: Event): seq<I64>
    requires Enabled(s, e)
  {
    if e.Submit? && e.accepted then [Echo(s.ins.inHand[e.k].us, s.narrow)] else []
  }

  function Leaving(s: Encoder, e: Event): seq<I64>
    requires Enabled(s, e)
  {
    if e.GetOutput? then [s.outs.queue[0].us] else []
  }

  function Submitted(s: Encoder, es: seq<Event>): seq<I64>
    requires Runs(s, es)
    decreases es
  {
    if es == [] then []
    else
      (if es[0].Submit? && es[0].accepted then [s.ins.inHand[es[0].k].us] else []) + Submitted(Step(s, es[0]), es[1..])
  }

  function Received(s: Encoder, es: seq<Event>): seq<I64>
    requires Runs(s, es)
    decreases es
  {
    if es == [] then [] else Leaving(s, es[0]) + Received(Step(s, es[0]), es[1..])
  }

  function Echoes(us: seq<I64>, narrow: bool): seq<I64> {
    seq(|us|, k requires 0 <= k < |us| => Echo(us[k], narrow))
  }

  lemma EncodeLine(s: Encoder, c: nat)
    requires Enabled(s, Encode(0, c))
    ensures Line(s) == Line(Step(s, Encode(0, c)))
  {
    var t := Step(s, Encode(0, c));
    var x := Join(s.ins.pending[0].time);
    assert Joined(s.ins.pending) == [x] + Joined(t.ins.pending);
    assert Joined(t.outs.encoded) == Joined(s.outs.encoded) + [x];
    assert Times(t.outs.queue) == Times(s.outs.queue);
  }

  lemma CollectLine(s: Encoder)
    requires Enabled(s, Collect(0))
    ensures Line(s) == Line(Step(s, Collect(0)))
  {
    var t := Step(s, Collect(0));
    var x := Join(s.outs.encoded[0].time);
    assert Joined(s.outs.encoded) == [x] + Joined(t.outs.encoded);
    assert Times(t.outs.queue) == Times(s.outs.queue) + [x];
  }

  lemma StepLine(s: Encoder, e: Event)
    requires Enabled(s, e) && (e.Encode? || e.Collect? ==> e.k == 0)
    ensures Line(s) + Entering(s, e) == Leaving(s, e) + Line(Step(s, e))
  {
    var t := Step(s, e);
    match e
    case Submit(k, accepted) =>
      if accepted {
        assert Joined(t.ins.pending) == Joined(s.ins.pending) + Entering(s, e);
      }
    case Encode(k, c) => EncodeLine(s, c);
    case Collect(k) => CollectLine(s);
    case GetOutput => assert Times(s.outs.queue) == Leaving(s, e) + Times(t.outs.queue);
    case _ => assert t.outs.queue == s.outs.queue;
  }

  lemma EchoesConcat(a: seq<I64>, b: seq<I64>, narrow: bool)
    ensures Echoes(a + b, narrow) == Echoes(a, narrow) + Echoes(b, narrow)
  {
  }

  lemma {:induction false} RunLine(s: Encoder, es: seq<Event>)
    requires Runs(s, es) && InTurn(es)
    ensures Line(s) + Echoes(Submitted(s, es), s.narrow) == Received(s, es) + Line(Final(s, es))
    decreases es
  {
    if es == [] {
      ConcatEmpty(Line(s));
      assert Echoes([], s.narrow) == [];
    } else {
      var t, rest := Step(s, es[0]), es[1..];
      var first := if es[0].Submit? && es[0].accepted then [s.ins.inHand[es[0].k].us] else [];
      var entering, leaving := Entering(s, es[0]), Leaving(s, es[0]);
      var submitted := Echoes(Submitted(t, rest), s.narrow);
      StepLine(s, es[0]);
      RunLine(t, rest);
      EchoesConcat(first, Submitted(t, rest), s.narrow);
      assert Echoes(first, s.narrow) == entering;
      Assoc(Line(s), entering, submitted);
      Assoc(leaving, Line(t), submitted);
      Assoc(leaving, Received(t, rest), Line(Final(s, es)));
    }
  }

  lemma EchoesSame(us: seq<I64>, narrow: bool)
    requires forall x :: x in us ==> Fits(x, narrow)
    ensures Echoes(us, narrow) == us
  {
    forall k | 0 <= k < |us| ensures Echoes(us, narrow)[k] == us[k] {
      assert us[k] in us;
      EchoIsSame(us[k], narrow);
    }
  }

  // ----- from EncodeBuffer on -----

  /** The time stamp that a call of EncodeBuffer is given, unless it throws for want of a buffer. */
  function Giving(s: Encoder, e: Event): seq<I64>
    requires Enabled(s, e)
  {
    if e.Take? && s.ins.available != [] then [e.us] else []
  }

  function Given(s: Encoder, es: seq<Event>): seq<I64>
    requires Runs(s, es)
    decreases es
  {
    if es == [] then [] else Giving(s, es[0]) + Given(Step(s, es[0]), es[1..])
  }

  /** A frame that was offered to the device, and whether the device took it. */
  datatype Offer = Offer(us: I64, accepted: bool)

  function Offering(s: Encoder, e: Event): seq<Offer>
    requires Enabled(s, e)
  {
    if e.Submit? then [Offer(s.ins.inHand[e.k].us, e.accepted)] else []
  }

  function Offers(s: Encoder, es: seq<Event>): seq<Offer>
    requires Runs(s, es)
    decreases es
  {
    if es == [] then [] else Offering(s, es[0]) + Offers(Step(s, es[0]), es[1..])
  }

  function Stamps(offers: seq<Offer>): (r: seq<I64>)
    ensures |r| == |offers|
  {
    seq(|offers|, k requires 0 <= k < |offers| => offers[k].us)
  }

  function Accepted(offers: seq<Offer>): seq<I64> {
    if offers == [] then [] else (if offers[0].accepted then [offers[0].us] else []) + Accepted(offers[1..])
  }

  function Refused(offers: seq<Offer>): seq<I64> {
    if offers == [] then [] else (if offers[0].accepted then [] else [offers[0].us]) + Refused(offers[1..])
  }

  function InHand(s: Encoder): seq<I64> {
    seq(|s.ins.inHand|, k requires 0 <= k < |s.ins.inHand| => s.ins.inHand[k].us)
  }

  lemma StampsPush(offers: seq<Offer>, more: seq<Offer>)
    ensures Stamps(offers + more) == Stamps(offers) + Stamps(more)
  {
  }

  lemma {:induction false} OffersSplit(offers: seq<Offer>)
    ensures multiset(Stamps(offers)) == multiset(Accepted(offers)) + multiset(Refused(offers))
  {
    if offers != [] {
      var rest := offers[1..];
      OffersSplit(rest);
      StampsFirst(offers);
      OfferFirst(offers[0].us, offers[0].accepted, Stamps(rest), Accepted(rest), Refused(rest));
    }
  }

  lemma StampsFirst(offers: seq<Offer>)
    requires offers != []
    ensures Stamps(offers) == [offers[0].us] + Stamps(offers[1..])
  {
  }

  lemma OfferFirst(us: I64, accepted: bool, stamps: seq<I64>, taken: seq<I64>, refused: seq<I64>)
    requires multiset(stamps) == multiset(taken) + multiset(refused)
    ensures multiset([us] + stamps) ==
      multiset((if accepted then [us] else []) + taken) + multiset((if accepted then [] else [us]) + refused)
  {
    MultisetConcat([us], stamps);
    if accepted {
      MultisetConcat([us], taken);
      ConcatEmpty(refused);
      PlusAssoc(multiset{us}, multiset(taken), multiset(refused));
    } else {
      MultisetConcat([us], refused);
      ConcatEmpty(taken);
      Regroup(multiset(taken), multiset(refused), multiset{us}, multiset{});
    }
  }

  // ----- in any order -----

  lemma TakeInHand(s: Encoder, e: Event)
    requires Enabled(s, e) && !e.Submit?
    ensures InHand(Step(s, e)) == InHand(s) + Giving(s, e)
  {
  }

  lemma SubmitInHand(s: Encoder, k: nat, accepted: bool)
    requires k < |s.ins.inHand|
    ensures InHand(Step(s, Submit(k, accepted))) == Without(InHand(s), k)
    ensures multiset(InHand(s)) ==
      multiset(InHand(Step(s, Submit(k, accepted)))) + multiset{s.ins.inHand[k].us}
  {
    var xs := InHand(s);
    assert xs == xs[..k] + [xs[k]] + xs[k + 1..];
    MultisetMiddle(xs[..k], xs[k], xs[k + 1..]);
  }

  lemma StepStamps(s: Encoder, e: Event)
    requires Enabled(s, e)
    ensures multiset(InHand(s)) + multiset(Giving(s, e)) ==
      multiset(Stamps(Offering(s, e))) + multiset(InHand(Step(s, e)))
  {
    if e.Submit? {
      SubmitInHand(s, e.k, e.accepted);
      assert Stamps(Offering(s, e)) == [s.ins.inHand[e.k].us];
    } else {
      TakeInHand(s, e);
      MultisetConcat(InHand(s), Giving(s, e));
    }
  }

  lemma Chain(
      before: multiset<I64>, given: multiset<I64>, more: multiset<I64>, offered: multiset<I64>,
      between: multiset<I64>, later: multiset<I64>, after: multiset<I64>)
    requires before + given == offered + between && between + more == later + after
    ensures before + (given + more) == (offered + later) + after
  {
    PlusAssoc(before, given, more);
    PlusAssoc(offered, between, more);
    PlusAssoc(offered, later, after);
  }

  lemma {:induction false} StampsCounted(s: Encoder, es: seq<Event>)
    requires Runs(s, es)
    ensures multiset(InHand(s)) + multiset(Given(s, es)) ==
      multiset(Stamps(Offers(s, es))) + multiset(InHand(Final(s, es)))
    decreases es
  {
    if es != [] {
      var t, rest := Step(s, es[0]), es[1..];
      StepStamps(s, es[0]);
      StampsCounted(t, rest);
      StampsPush(Offering(s, es[0]), Offers(t, rest));
      MultisetConcat(Stamps(Offering(s, es[0])), Stamps(Offers(t, rest)));
      MultisetConcat(Giving(s, es[0]), Given(t, rest));
      Chain(multiset(InHand(s)), multiset(Giving(s, es[0])), multiset(Given(t, rest)),
            multiset(Stamps(Offering(s, es[0]))), multiset(InHand(t)), multiset(Stamps(Offers(t, rest))),
            multiset(InHand(Final(s, es))));
    }
  }

  /**
   * In any interleaving, the time stamps given to EncodeBuffer are those that the device accepted,
   * those it refused and those still in hand.
   */
  lemma StampsAccounted(s: Encoder, es: seq<Event>)
    requires Runs(s, es)
    ensures multiset(InHand(s)) + multiset(Given(s, es)) ==
      multiset(Accepted(Offers(s, es))) + multiset(Refused(Offers(s, es))) + multiset(InHand(Final(s, es)))
  {
    StampsCounted(s, es);
    OffersSplit(Offers(s, es));
  }

  // ----- in order -----

  /** A frame is offered to the device before those that EncodeBuffer was given after it. */
  predicate OldestFirst(es: seq<Event>) {
    es == [] || ((es[0].Submit? ==> es[0].k == 0) && OldestFirst(es[1..]))
  }

  lemma StepInOrder(s: Encoder, e: Event)
    requires Enabled(s, e) && (e.Submit? ==> e.k == 0)
    ensures InHand(s) + Giving(s, e) == Stamps(Offering(s, e)) + InHand(Step(s, e))
  {
    if e.Submit? {
      SubmitInHand(s, 0, e.accepted);
      assert InHand(s) == Stamps(Offering(s, e)) + InHand(s)[1..];
    } else {
      TakeInHand(s, e);
    }
  }

  lemma {:induction false} StampsInOrder(s: Encoder, es: seq<Event>)
    requires Runs(s, es) && OldestFirst(es)
    ensures InHand(s) + Given(s, es) == Stamps(Offers(s, es)) + InHand(Final(s, es))
    decreases es
  {
    if es == [] {
      ConcatEmpty(InHand(s));
    } else {
      var t, rest := Step(s, es[0]), es[1..];
      StepInOrder(s, es[0]);
      StampsInOrder(t, rest);
      StampsPush(Offering(s, es[0]), Offers(t, rest));
      Assoc(InHand(s), Giving(s, es[0]), Given(t, rest));
      Assoc(Stamps(Offering(s, es[0])), InHand(t), Given(t, rest));
      Assoc(Stamps(Offering(s, es[0])), Stamps(Offers(t, rest)), InHand(Final(s, es)));
    }
  }

  lemma {:induction false} SubmittedIsAccepted(s: Encoder, es: seq<Event>)
    requires Runs(s, es)
    ensures Submitted(s, es) == Accepted(Offers(s, es))
    decreases es
  {
    if es != [] {
      var rest := Offers(Step(s, es[0]), es[1..]);
      SubmittedIsAccepted(Step(s, es[0]), es[1..]);
      if es[0].Submit? {
        assert (Offering(s, es[0]) + rest)[1..] == rest;
      } else {
        ConcatEmpty(rest);
      }
    }
  }

  lemma {:induction false} AcceptedAreStamps(offers: seq<Offer>, x: I64)
    requires x in Accepted(offers)
    ensures x in Stamps(offers)
  {
    if !offers[0].accepted || x != offers[0].us {
      AcceptedAreStamps(offers[1..], x);
      var k :| 0 <= k < |offers| - 1 && Stamps(offers[1..])[k] == x;
      assert Stamps(offers)[k + 1] == x;
    } else {
      assert Stamps(offers)[0] == x;
    }
  }

  /**
   * An encoder started empty, with a device that works in turn and frames offered to it in turn:
   * the frames given to EncodeBuffer are, in order, those offered and those still in hand, and the
   * offers that the device accepted leave in order, with the time stamps EncodeBuffer was given; each
   * one not given out is still under way.
   */
  lemma FramesKeepTheirTimes(n: nat, m: nat, narrow: bool, es: seq<Event>)
    requires Runs(Opened(n, m, narrow), es) && InTurn(es) && OldestFirst(es)
    requires forall x :: x in Given(Opened(n, m, narrow), es) ==> Fits(x, narrow)
    ensures var s := Opened(n, m, narrow);
      && Given(s, es) == Stamps(Offers(s, es)) + InHand(Final(s, es))
      && Accepted(Offers(s, es)) == Received(s, es) + Line(Final(s, es))
  {
    var s := Opened(n, m, narrow);
    StampsInOrder(s, es);
    ConcatEmpty(Given(s, es));
    SubmittedIsAccepted(s, es);
    forall x | x in Submitted(s, es) ensures Fits(x, narrow) {
      AcceptedAreStamps(Offers(s, es), x);
    }
    RunLine(s, es);
    EchoesSame(Submitted(s, es), narrow);
    ConcatEmpty(Submitted(s, es));
  }

  predicate NoneRefused(es: seq<Event>) {
    es == [] || ((es[0].Submit? ==> es[0].accepted) && NoneRefused(es[1..]))
  }

  lemma {:induction false} AllAreAccepted(s: Encoder, es: seq<Event>)
    requires Runs(s, es) && NoneRefused(es)
    ensures Accepted(Offers(s, es)) == Stamps(Offers(s, es))
    decreases es
  {
    if es != [] {
      var rest := Offers(Step(s, es[0]), es[1..]);
      AllAreAccepted(Step(s, es[0]), es[1..]);
      StampsPush(Offering(s, es[0]), rest);
      if es[0].Submit? {
        assert (Offering(s, es[0]) + rest)[1..] == rest;
      } else {
        ConcatEmpty(rest);
      }
    }
  }

  /** With no frame refused: what comes out, is under way or in hand is what EncodeBuffer was given. */
  lemma EveryFrameComesOut(n: nat, m: nat, narrow: bool, es: seq<Event>)
    requires Runs(Opened(n, m, narrow), es) && InTurn(es) && OldestFirst(es) && NoneRefused(es)
    requires forall x :: x in Given(Opened(n, m, narrow), es) ==> Fits(x, narrow)
    ensures var s := Opened(n, m, narrow);
      Given(s, es) == Received(s, es) + Line(Final(s, es)) + InHand(Final(s, es))
  {
    FramesKeepTheirTimes(n, m, narrow, es);
    AllAreAccepted(Opened(n, m, narrow), es);
  }
}
