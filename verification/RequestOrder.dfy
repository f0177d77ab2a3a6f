/** The queues of LibcameraApp are first in, first out: the order of messages and of requests. */
module RequestOrder {
  import opened RequestLoop
  import opened Seqs

  // ----- messages -----

  /** The buffer sets posted in a run, in order. */
  function Posted(es: seq<Event>): seq<BufferMap> {
    if es == [] then [] else (if es[0].Post? then [es[0].buffers] else []) + Posted(es[1..])
  }

  /** The one message that a step removes from the queue. */
  function Removed(s: Loop, e: Event): seq<BufferMap>
    requires Enabled(s, e)
  {
    if e.Wait? then [s.messages[0]] else []
  }

  /** The buffer sets that Wait hands to consumers in a run, in order. */
  function HandedOut(s: Loop, es: seq<Event>): seq<BufferMap>
    requires Runs(s, es)
    decreases es
  {
    if es == [] then [] else Removed(s, es[0]) + HandedOut(Step(s, es[0]), es[1..])
  }

  /** What Wait removes is what the consumer then holds. */
  lemma WaitHands(s: Loop)
    requires s.messages != []
    ensures Step(s, Wait).held == s.held + multiset(Removed(s, Wait))
  {
  }

  lemma StepMessages(s: Loop, e: Event)
    requires Enabled(s, e)
    ensures s.messages + (if e.Post? then [e.buffers] else []) == Removed(s, e) + Step(s, e).messages
  {
  }

  /**
   * Consumers get the buffer sets in the order in which they were posted: those handed out, and then
   * those still in the queue, are those that were in the queue and then those posted.
   */
  lemma {:induction false} MessagesInOrder(s: Loop, es: seq<Event>)
    requires Runs(s, es)
    ensures s.messages + Posted(es) == HandedOut(s, es) + Final(s, es).messages
    decreases es
  {
    if es == [] {
      ConcatEmpty(s.messages);
    } else {
      var t, rest := Step(s, es[0]), es[1..];
      StepMessages(s, es[0]);
      MessagesInOrder(t, rest);
      Assoc(s.messages, if es[0].Post? then [es[0].buffers] else [], Posted(rest));
      Assoc(Removed(s, es[0]), t.messages, Posted(rest));
      Assoc(Removed(s, es[0]), HandedOut(t, rest), Final(s, es).messages);
    }
  }

  // ----- free requests -----

  /** The request that a step frees, and the one it takes for a buffer set to be queued with. */
  function Freeing(s: Loop, e: Event): seq<Request>
    requires Enabled(s, e)
  {
    if e.Complete? then [s.camera[e.i].request] else []
  }

  function Taking(s: Loop, e: Event): seq<Request>
    requires Enabled(s, e)
  {
    var after := Step(s, e).queueing;
    if e.Take? && |after| > |s.queueing| then [after[|after| - 1].request] else []
  }

  function Freed(s: Loop, es: seq<Event>): seq<Request>
    requires Runs(s, es)
    decreases es
  {
    if es == [] then [] else Freeing(s, es[0]) + Freed(Step(s, es[0]), es[1..])
  }

  function Taken(s: Loop, es: seq<Event>): seq<Request>
    requires Runs(s, es)
    decreases es
  {
    if es == [] then [] else Taking(s, es[0]) + Taken(Step(s, es[0]), es[1..])
  }

  lemma StepFree(s: Loop, e: Event)
    requires Enabled(s, e)
    ensures s.free + Freeing(s, e) == Taking(s, e) + Step(s, e).free
  {
  }

  /** Requests are used again in the order in which they were freed. */
  lemma {:induction false} RequestsInOrder(s: Loop, es: seq<Event>)
    requires Runs(s, es)
    ensures s.free + Freed(s, es) == Taken(s, es) + Final(s, es).free
    decreases es
  {
    if es == [] {
      ConcatEmpty(s.free);
    } else {
      var t, rest := Step(s, es[0]), es[1..];
      StepFree(s, es[0]);
      RequestsInOrder(t, rest);
      Assoc(s.free, Freeing(s, es[0]), Freed(t, rest));
      Assoc(Taking(s, es[0]), t.free, Freed(t, rest));
      Assoc(Taking(s, es[0]), Taken(t, rest), Final(s, es).free);
    }
  }

  /** From the start: what was posted is what was handed out and what is still queued, in order. */
  lemma FromTheStart(rows: seq<BufferMap>, es: seq<Event>)
    requires Runs(Started(rows), es)
    ensures Posted(es) == HandedOut(Started(rows), es) + Final(Started(rows), es).messages
    ensures Freed(Started(rows), es) == Taken(Started(rows), es) + Final(Started(rows), es).free
  {
    MessagesInOrder(Started(rows), es);
    RequestsInOrder(Started(rows), es);
    ConcatEmpty(Posted(es));
    ConcatEmpty(Freed(Started(rows), es));
  }
}
