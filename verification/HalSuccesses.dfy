/** Which cameras have ids, told from the history alone: the first successful addition counts. */
module HalSuccesses {
  import opened HalIds
  import opened Seqs

  predicate Succeeds(e: Event) {
    e.Added? && e.initialized
  }

  predicate HasName(cameras: seq<Camera>, name: string) {
    exists c :: c in cameras && c.name == name
  }

  /** The cameras named so far, and those first added with success in the rest of a history, in order. */
  function NamedFrom(known: seq<Camera>, es: seq<Event>): seq<Camera>
    decreases es
  {
    if es == [] then known
    else NamedFrom(NamedBy(known, es[0]), es[1..])
  }

  function NamedBy(known: seq<Camera>, e: Event): seq<Camera> {
    if Succeeds(e) && !HasName(known, e.camera.name) then known + [e.camera] else known
  }

  function Named(es: seq<Event>): seq<Camera> {
    NamedFrom([], es)
  }

  /** The names of the cameras of one kind, in order. */
  function NamesOf(cameras: seq<Camera>, external: bool): seq<string> {
    if cameras == [] then []
    else
      var n := |cameras| - 1;
      NamesOf(cameras[..n], external) + if cameras[n].external == external then [cameras[n].name] else []
  }

  lemma NamesPush(cameras: seq<Camera>, c: Camera, external: bool)
    ensures NamesOf(cameras + [c], external) ==
      NamesOf(cameras, external) + if c.external == external then [c.name] else []
  {
    InitLast(cameras, c);
  }

  lemma HasPush(cameras: seq<Camera>, c: Camera, name: string)
    ensures HasName(cameras + [c], name) <==> HasName(cameras, name) || c.name == name
  {
    if c.name == name {
      assert c in cameras + [c];
    }
    if HasName(cameras, name) {
      var d :| d in cameras && d.name == name;
      assert d in cameras + [c];
    }
  }

  // ----- the books of the manager -----

  /** The ids and the counters are those of the cameras named. */
  ghost predicate Books(s: Manager, named: seq<Camera>) {
    && IdsOrdered(s) && KnowsNames(s.ids, named)
    && s.internal == NamesOf(named, false) && s.external == NamesOf(named, true)
    && |s.internal| + |s.external| == |named|
  }

  ghost predicate KnowsNames(ids: map<string, nat>, named: seq<Camera>) {
    forall name :: name in ids <==> HasName(named, name)
  }

  lemma KnowsPush(ids: map<string, nat>, named: seq<Camera>, c: Camera, id: nat)
    requires KnowsNames(ids, named)
    ensures KnowsNames(ids[c.name := id], named + [c])
  {
    forall name ensures name in ids[c.name := id] <==> HasName(named + [c], name) {
      HasPush(named, c, name);
    }
  }

  lemma FirstSuccess(s: Manager, named: seq<Camera>, c: Camera)
    requires Books(s, named) && !HasName(named, c.name)
    ensures Books(Add(s, c), named + [c])
  {
    AddOrdered(s, c);
    KnowsPush(s.ids, named, c, NewId(s, c));
    NamesPush(named, c, false);
    NamesPush(named, c, true);
    ConcatEmpty(s.internal);
    ConcatEmpty(s.external);
  }

  lemma StepBooks(s: Manager, named: seq<Camera>, e: Event)
    requires Books(s, named) && Enabled(s, e)
    ensures Books(Step(s, e), NamedBy(named, e))
  {
    if Succeeds(e) && !HasName(named, e.camera.name) {
      FirstSuccess(s, named, e.camera);
    }
  }

  lemma {:induction false} BooksKept(s: Manager, named: seq<Camera>, es: seq<Event>)
    requires Books(s, named) && Runs(s, es)
    ensures Books(Final(s, es), NamedFrom(named, es))
    decreases es
  {
    if es != [] {
      StepBooks(s, named, es[0]);
      BooksKept(Step(s, es[0]), NamedBy(named, es[0]), es[1..]);
    }
  }

  // ----- what the history says -----

  lemma {:induction false} HasNameWhen(known: seq<Camera>, es: seq<Event>, name: string)
    ensures HasName(NamedFrom(known, es), name) <==>
      HasName(known, name) || exists i :: 0 <= i < |es| && Succeeds(es[i]) && es[i].camera.name == name
    decreases es
  {
    if es != [] {
      HasNameWhen(NamedBy(known, es[0]), es[1..], name);
      if Succeeds(es[0]) {
        HasPush(known, es[0].camera, name);
      }
      assert forall i :: 0 <= i < |es| - 1 ==> es[1..][i] == es[i + 1];
    }
  }

  /** No two of the cameras named have the same name. */
  predicate DistinctNames(cameras: seq<Camera>) {
    forall j, k :: 0 <= j < k < |cameras| ==> cameras[j].name != cameras[k].name
  }

  lemma {:induction false} NamedOnce(known: seq<Camera>, es: seq<Event>)
    requires DistinctNames(known)
    ensures DistinctNames(NamedFrom(known, es))
    decreases es
  {
    if es != [] {
      NamedOnce(NamedBy(known, es[0]), es[1..]);
    }
  }

  /**
   * Over any history from the start: a name has an id exactly if some addition of that name has
   * succeeded; the two counters together count those names; and internal ids run from 0, external
   * ones from 1000, in the order of the first success.  So a failed addition uses up no id.
   */
  lemma IdsOfSuccesses(es: seq<Event>, name: string)
    requires Runs(Initial(), es)
    ensures var s := Final(Initial(), es);
      && (name in s.ids <==> exists i :: 0 <= i < |es| && Succeeds(es[i]) && es[i].camera.name == name)
      && |s.internal| + |s.external| == |Named(es)| && DistinctNames(Named(es))
      && s.internal == NamesOf(Named(es), false) && s.external == NamesOf(Named(es), true)
      && (forall k :: 0 <= k < |s.internal| ==> s.internal[k] in s.ids && s.ids[s.internal[k]] == k)
      && (forall k :: 0 <= k < |s.external| ==> s.external[k] in s.ids && s.ids[s.external[k]] == 1000 + k)
  {
    BooksKept(Initial(), [], es);
    HasNameWhen([], es, name);
    NamedOnce([], es);
  }

  /** A failed addition changes nothing, and a successful one just what it should. */
  lemma AddedFields(s: Manager, c: Camera, initialized: bool)
    requires Enabled(s, Added(c, initialized))
    ensures var t := Step(s, Added(c, initialized));
      if !initialized then
        && t.ids == s.ids && t.internal == s.internal && t.external == s.external
        && t.devices == s.devices && t.callbacks == s.callbacks && t.notes == s.notes
      else
        && c.name in t.ids && t.devices == s.devices + [Device(t.ids[c.name], c)] && t.callbacks == s.callbacks
        && t.notes == (if s.callbacks then s.notes + [Note(t.ids[c.name], true)] else s.notes)
        && t.ids.Keys == s.ids.Keys + {c.name} && forall name :: name in s.ids ==> t.ids[name] == s.ids[name]
  {
  }

  /**
   * Removing a camera takes away its device and no other, keeps all ids, and is told to the framework
   * exactly if the device had an external id.
   */
  lemma RemovedFields(s: Manager, c: Camera)
    requires Inv(s) && Enabled(s, Removed(c))
    ensures var t := Step(s, Removed(c));
      && t.ids == s.ids && t.internal == s.internal && t.external == s.external && t.callbacks == s.callbacks
      && (forall d :: d in t.devices <==> d in s.devices && d.camera != c)
      && forall d :: d in s.devices && d.camera == c ==>
           |t.devices| == |s.devices| - 1
           && t.notes == if d.id >= 1000 then s.notes + [Note(d.id, false)] else s.notes
  {
    var k := IndexOf(s.devices, c);
    if k < |s.devices| {
      AllButOne(s.devices, k);
      forall d | d in s.devices && d.camera == c ensures d == s.devices[k] {
        SameName(s, d, s.devices[k]);
      }
      assert s.devices[k] !in Without(s.devices, k);
    }
  }

  /** What is told when the callbacks are set: each external device present, and nothing else. */
  lemma {:induction false} AnnouncedWhen(devices: seq<Device>, x: Note)
    ensures x in Announced(devices) <==> x.present && x.id >= 1000 && exists d :: d in devices && d.id == x.id
  {
    if devices != [] {
      var n := |devices| - 1;
      AnnouncedWhen(devices[..n], x);
      assert devices == devices[..n] + [devices[n]];
      if x.id == devices[n].id {
        assert devices[n] in devices;
      }
    }
  }
}
