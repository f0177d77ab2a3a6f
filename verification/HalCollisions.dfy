/** A history of the Android HAL in which two live cameras get one id. */
module HalCollisions {
  import opened Seqs
  import opened HalIds

  /** Camera k, internal, with a name of k letters. */
  function Nth(k: nat): Camera {
    Camera(k, Letters(k), false)
  }

  function Letters(k: nat): (name: string)
    ensures |name| == k
  {
    seq(k, _ => 'c')
  }

  /** n internal cameras plugged in, one after the other. */
  function Plugged(n: nat): seq<Event> {
    if n == 0 then [] else Plugged(n - 1) + [Added(Nth(n - 1), true)]
  }

  ghost predicate Holds(s: Manager, n: nat) {
    && Inv(s) && |s.internal| == |s.devices| == n && s.external == []
    && (forall k :: 0 <= k < n ==> |s.internal[k]| == k)
    && forall k :: 0 <= k < n ==> s.devices[k] == Device(k, Nth(k))
  }

  lemma NewName(s: Manager, n: nat, name: string)
    requires Holds(s, n) && |name| >= n
    ensures name !in s.ids
  {
  }

  lemma PlugOne(s: Manager, n: nat)
    requires Holds(s, n)
    ensures Enabled(s, Added(Nth(n), true)) && Holds(Step(s, Added(Nth(n), true)), n + 1)
  {
    NewName(s, n, Letters(n));
    StepKeeps(s, Added(Nth(n), true));
    InitLast(s.internal, Letters(n));
    InitLast(s.devices, Device(n, Nth(n)));
  }

  lemma {:induction false} RunsPush(s: Manager, es: seq<Event>, e: Event)
    requires Runs(s, es) && Enabled(Final(s, es), e)
    ensures Runs(s, es + [e]) && Final(s, es + [e]) == Step(Final(s, es), e)
    decreases es
  {
    if es == [] {
      assert [e][1..] == [] && [] + [e] == [e];
    } else {
      assert (es + [e])[1..] == es[1..] + [e];
      RunsPush(Step(s, es[0]), es[1..], e);
    }
  }

  lemma {:induction false} AllPlugged(n: nat)
    ensures Runs(Initial(), Plugged(n)) && Holds(Final(Initial(), Plugged(n)), n)
  {
    if n == 0 {
      InitialInv();
    } else {
      AllPlugged(n - 1);
      PlugOne(Final(Initial(), Plugged(n - 1)), n - 1);
      RunsPush(Initial(), Plugged(n - 1), Added(Nth(n - 1), true));
    }
  }

  lemma PlugExternal(s: Manager, c: Camera)
    requires Holds(s, FIRST_EXTERNAL + 1) && c.external && |c.name| > FIRST_EXTERNAL
    ensures Enabled(s, Added(c, true))
    ensures var t := Step(s, Added(c, true));
      && !Injective(t.ids)
      && t.devices[FIRST_EXTERNAL..] == [Device(FIRST_EXTERNAL, Nth(FIRST_EXTERNAL)), Device(FIRST_EXTERNAL, c)]
  {
    NewName(s, FIRST_EXTERNAL + 1, c.name);
    StepKeeps(s, Added(c, true));
    IdsAreUnique(Step(s, Added(c, true)));
  }

  /**
   * After 1001 internal cameras an external one gets the id of the last of them, and both devices
   * are live.
   */
  lemma IdsCollide(c: Camera) returns (es: seq<Event>)
    requires c.external && |c.name| > FIRST_EXTERNAL
    ensures Runs(Initial(), es)
    ensures var s := Final(Initial(), es);
      && !Injective(s.ids) && |s.devices| > FIRST_EXTERNAL
      && s.devices[FIRST_EXTERNAL..] == [Device(FIRST_EXTERNAL, Nth(FIRST_EXTERNAL)), Device(FIRST_EXTERNAL, c)]
  {
    var n := FIRST_EXTERNAL + 1;
    AllPlugged(n);
    PlugExternal(Final(Initial(), Plugged(n)), c);
    RunsPush(Initial(), Plugged(n), Added(c, true));
    es := Plugged(n) + [Added(c, true)];
  }
}
