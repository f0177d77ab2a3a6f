/**
 * The camera ids of the Android HAL over any history of cameras plugged in and out: which id a
 * camera gets, which devices are live, and what the framework is told.
 */
module HalIds {
  import opened Wrappers
  import opened Seqs

  const FIRST_EXTERNAL := 1000

  /** One plugging-in of a camera; a camera keeps its name over all of them. */
  datatype Camera = Camera(object_: nat, name: string, external: bool)
  datatype Device = Device(id: nat, camera: Camera)
  datatype Note = Note(id: nat, present: bool)

  /**
   * `internal` and `external` are the names that have got an id, in the order in which they got it;
   * their lengths are the two counters.  `notes` is what the framework has been told.
   */
  datatype Manager = Manager(
    ids: map<string, nat>,
    internal: seq<string>,
    external: seq<string>,
    devices: seq<Device>,
    callbacks: bool,
    notes: seq<Note>)

  datatype Event =
    | Added(camera: Camera, initialized: bool)
    | Removed(camera: Camera)
    | SetCallbacks

  function Initial(): Manager {
    Manager(map[], [], [], [], false, [])
  }

  // ----- the steps -----

  function NewId(s: Manager, c: Camera): nat {
    if c.name in s.ids then s.ids[c.name]
    else if c.external then FIRST_EXTERNAL + |s.external|
    else |s.internal|
  }

  /** The index of the first device for the camera, or the number of devices. */
  function IndexOf(devices: seq<Device>, c: Camera): (k: nat)
    ensures k <= |devices| && (k < |devices| ==> devices[k].camera == c)
    ensures forall j :: 0 <= j < k ==> devices[j].camera != c
  {
    if devices == [] then 0
    else
      var n := |devices| - 1;
      var k := IndexOf(devices[..n], c);
      if k < n then k else if devices[n].camera == c then n else n + 1
  }

  /** The external devices are announced. */
  function Announced(devices: seq<Device>): seq<Note> {
    if devices == [] then []
    else
      var n := |devices| - 1;
      Announced(devices[..n]) + if devices[n].id >= FIRST_EXTERNAL then [Note(devices[n].id, true)] else []
  }

  /** cameraRemoved uses the callbacks for an external camera without asking whether they are set. */
  predicate NeedsCallbacks(s: Manager, c: Camera) {
    var k := IndexOf(s.devices, c);
    k < |s.devices| && s.devices[k].id >= FIRST_EXTERNAL
  }

  predicate Enabled(s: Manager, e: Event) {
    match e
    case Added(c, _) => forall d :: d in s.devices ==> d.camera.name != c.name   // a camera is present once
    case Removed(c) => NeedsCallbacks(s, c) ==> s.callbacks
    case SetCallbacks => true
  }

  function Add(s: Manager, c: Camera): Manager {
    var id, isNew := NewId(s, c), c.name !in s.ids;
    Manager(if isNew then s.ids[c.name := id] else s.ids,
            if isNew && !c.external then s.internal + [c.name] else s.internal,
            if isNew && c.external then s.external + [c.name] else s.external,
            s.devices + [Device(id, c)],
            s.callbacks,
            if s.callbacks then s.notes + [Note(id, true)] else s.notes)
  }

  function Remove(s: Manager, c: Camera): Manager {
    var k := IndexOf(s.devices, c);
    if k == |s.devices| then s
    else
      s.(devices := Without(s.devices, k),
         notes := if s.devices[k].id >= FIRST_EXTERNAL then s.notes + [Note(s.devices[k].id, false)] else s.notes)
  }

  function Step(s: Manager, e: Event): Manager {
    match e
    case Added(c, initialized) => if initialized then Add(s, c) else s
    case Removed(c) => Remove(s, c)
    case SetCallbacks => s.(callbacks := true, notes := s.notes + Announced(s.devices))
  }

  predicate Runs(s: Manager, es: seq<Event>)
    decreases es
  {
    es == [] || (Enabled(s, es[0]) && Runs(Step(s, es[0]), es[1..]))
  }

  function Final(s: Manager, es: seq<Event>): Manager
    requires Runs(s, es)
    decreases es
  {
    if es == [] then s else Final(Step(s, es[0]), es[1..])
  }

  // ----- who has which id -----

  predicate Distinct(names: seq<string>) {
    forall j, k :: 0 <= j < k < |names| ==> names[j] != names[k]
  }

  /** Internal cameras have the ids from 0 on, external ones those from 1000 on, in order. */
  ghost predicate IdsOrdered(s: Manager) {
    && Distinct(s.internal) && Distinct(s.external)
    && (forall name :: name in s.ids <==> name in s.internal || name in s.external)
    && (forall k :: 0 <= k < |s.internal| ==> s.internal[k] !in s.external && s.ids[s.internal[k]] == k)
    && (forall k :: 0 <= k < |s.external| ==> s.ids[s.external[k]] == FIRST_EXTERNAL + k)
  }

  /** Each live device is another camera, and has the id of its camera. */
  predicate DevicesNamed(s: Manager) {
    && (forall j, k :: 0 <= j < k < |s.devices| ==> s.devices[j].camera.name != s.devices[k].camera.name)
    && forall d :: d in s.devices ==> d.camera.name in s.ids && d.id == s.ids[d.camera.name]
  }

  ghost predicate Inv(s: Manager) {
    IdsOrdered(s) && DevicesNamed(s)
  }

  lemma AddInternal(s: Manager, name: string)
    requires IdsOrdered(s) && name !in s.ids
    ensures IdsOrdered(s.(ids := s.ids[name := |s.internal|], internal := s.internal + [name]))
  {
    var after := s.internal + [name];
    assert forall k :: 0 <= k < |s.internal| ==> after[k] == s.internal[k] && s.internal[k] in s.ids;
    assert forall k :: 0 <= k < |s.external| ==> s.external[k] in s.ids;
  }

  lemma AddExternal(s: Manager, name: string)
    requires IdsOrdered(s) && name !in s.ids
    ensures IdsOrdered(s.(ids := s.ids[name := FIRST_EXTERNAL + |s.external|], external := s.external + [name]))
  {
    var after := s.external + [name];
    assert forall k :: 0 <= k < |s.internal| ==> s.internal[k] in s.ids;
    assert forall k :: 0 <= k < |s.external| ==> after[k] == s.external[k] && s.external[k] in s.ids;
  }

  lemma AddOrdered(s: Manager, c: Camera)
    requires IdsOrdered(s)
    ensures IdsOrdered(Add(s, c))
  {
    if c.name !in s.ids {
      if c.external {
        AddExternal(s, c.name);
      } else {
        AddInternal(s, c.name);
      }
    }
  }

  lemma StepKeeps(s: Manager, e: Event)
    requires Inv(s) && Enabled(s, e)
    ensures Inv(Step(s, e))
  {
    match e
    case Added(c, initialized) => AddOrdered(s, c);
    case Removed(_) =>
    case SetCallbacks =>
  }

  lemma {:induction false} InvKept(s: Manager, es: seq<Event>)
    requires Inv(s) && Runs(s, es)
    ensures Inv(Final(s, es))
    decreases es
  {
    if es != [] {
      StepKeeps(s, es[0]);
      InvKept(Step(s, es[0]), es[1..]);
    }
  }

  lemma InitialInv()
    ensures Inv(Initial()) && ViewIsRight(Initial())
  {
  }

  /**
   * Over any history from the start, internal ids run from 0 and external ones from 1000 in the
   * order of first success, and each live device is another camera and has its camera's id.
   */
  lemma RunKeeps(es: seq<Event>)
    requires Runs(Initial(), es)
    ensures Inv(Final(Initial(), es))
  {
    InitialInv();
    InvKept(Initial(), es);
  }

  predicate Injective(ids: map<string, nat>) {
    forall a, b :: a in ids && b in ids && ids[a] == ids[b] ==> a == b
  }

  /** Ids are unique exactly as long as there are not both an external camera and 1001 internal ones. */
  lemma IdsAreUnique(s: Manager)
    requires IdsOrdered(s)
    ensures Injective(s.ids) <==> |s.internal| <= FIRST_EXTERNAL || s.external == []
  {
    if |s.internal| > FIRST_EXTERNAL && s.external != [] {
      assert s.ids[s.internal[FIRST_EXTERNAL]] == s.ids[s.external[0]];
      assert s.internal[FIRST_EXTERNAL] in s.internal && s.external[0] in s.external;
    } else {
      forall a, b | a in s.ids && b in s.ids && s.ids[a] == s.ids[b] ensures a == b {
        IdIsPlace(s, a);
        IdIsPlace(s, b);
      }
    }
  }

  lemma IdIsPlace(s: Manager, name: string)
    requires IdsOrdered(s) && name in s.ids
    ensures name in s.internal ==> s.ids[name] < |s.internal| && s.internal[s.ids[name]] == name
    ensures name !in s.internal ==>
      FIRST_EXTERNAL <= s.ids[name] < FIRST_EXTERNAL + |s.external| && s.external[s.ids[name] - FIRST_EXTERNAL] == name
  {
    if name in s.internal {
      var k :| 0 <= k < |s.internal| && s.internal[k] == name;
    } else {
      var k :| 0 <= k < |s.external| && s.external[k] == name;
    }
  }

  /** The ids given out are exactly those below the two counters. */
  lemma IdsInUse(s: Manager, id: nat)
    requires IdsOrdered(s)
    ensures (exists name :: name in s.ids && s.ids[name] == id) <==>
      id < |s.internal| || FIRST_EXTERNAL <= id < FIRST_EXTERNAL + |s.external|
  {
    if id < |s.internal| {
      assert s.internal[id] in s.ids && s.ids[s.internal[id]] == id;
    } else if FIRST_EXTERNAL <= id < FIRST_EXTERNAL + |s.external| {
      var name := s.external[id - FIRST_EXTERNAL];
      assert name in s.ids && s.ids[name] == id;
    } else if name :| name in s.ids && s.ids[name] == id {
      IdIsPlace(s, name);
    }
  }

  // ----- ids stay -----

  predicate Keeps(a: map<string, nat>, b: map<string, nat>) {
    forall name :: name in a ==> name in b && b[name] == a[name]
  }

  /** A camera that comes back, whatever happened in between, has the id it had. */
  lemma {:induction false} IdsStay(s: Manager, es: seq<Event>)
    requires Runs(s, es)
    ensures Keeps(s.ids, Final(s, es).ids)
    decreases es
  {
    if es != [] {
      IdsStay(Step(s, es[0]), es[1..]);
    }
  }

  lemma ComesBack(s: Manager, es: seq<Event>, c: Camera)
    requires Runs(s, es) && c.name in s.ids && Enabled(Final(s, es), Added(c, true))
    ensures var t := Step(Final(s, es), Added(c, true));
      t.devices == Final(s, es).devices + [Device(s.ids[c.name], c)] && t.ids == Final(s, es).ids
  {
    IdsStay(s, es);
  }

  // ----- live devices -----

  /** cameraDeviceFromHalId. */
  function DeviceFromId(devices: seq<Device>, id: nat): Option<Device> {
    if devices == [] then None
    else
      var n := |devices| - 1;
      var d := DeviceFromId(devices[..n], id);
      if d.Some? then d else if devices[n].id == id then Some(devices[n]) else None
  }

  lemma {:induction false} FoundDevice(devices: seq<Device>, id: nat)
    ensures match DeviceFromId(devices, id)
      case Some(d) => d in devices && d.id == id
      case None => forall d :: d in devices ==> d.id != id
  {
    if devices != [] {
      var n := |devices| - 1;
      assert devices == devices[..n] + [devices[n]];
      FoundDevice(devices[..n], id);
    }
  }

  /** A look-up gives the first device with the id. */
  lemma {:induction false} DeviceIsFirst(devices: seq<Device>, id: nat) returns (k: nat)
    requires DeviceFromId(devices, id).Some?
    ensures k < |devices| && DeviceFromId(devices, id) == Some(devices[k]) && devices[k].id == id
    ensures forall j :: 0 <= j < k ==> devices[j].id != id
  {
    var n := |devices| - 1;
    if DeviceFromId(devices[..n], id).Some? {
      k := DeviceIsFirst(devices[..n], id);
    } else {
      k := n;
      FoundDevice(devices[..n], id);
      forall j | 0 <= j < n ensures devices[j].id != id {
        assert devices[j] in devices[..n];
      }
    }
  }

  /** With unique ids no two live devices share one, and looking one up by its id finds it. */
  lemma DeviceIsFound(s: Manager, d: Device)
    requires Inv(s) && (|s.internal| <= FIRST_EXTERNAL || s.external == []) && d in s.devices
    ensures DeviceFromId(s.devices, d.id) == Some(d)
    ensures forall e :: e in s.devices && e.id == d.id ==> e == d
  {
    IdsAreUnique(s);
    FoundDevice(s.devices, d.id);
    forall e | e in s.devices && e.id == d.id ensures e == d {
      SameName(s, d, e);
    }
  }

  lemma SameName(s: Manager, d: Device, e: Device)
    requires DevicesNamed(s) && d in s.devices && e in s.devices && d.camera.name == e.camera.name
    ensures d == e
  {
    var j :| 0 <= j < |s.devices| && s.devices[j] == d;
    var k :| 0 <= k < |s.devices| && s.devices[k] == e;
  }

  // ----- what the framework knows -----

  /** The ids from 1000 on that the framework believes present. */
  function View(notes: seq<Note>): set<nat> {
    if notes == [] then {}
    else
      var n := |notes| - 1;
      var v := View(notes[..n]);
      if notes[n].id < FIRST_EXTERNAL then v else if notes[n].present then v + {notes[n].id} else v - {notes[n].id}
  }

  function LiveExternal(devices: seq<Device>): set<nat> {
    set d | d in devices && d.id >= FIRST_EXTERNAL :: d.id
  }

  predicate ViewIsRight(s: Manager) {
    View(s.notes) == if s.callbacks then LiveExternal(s.devices) else {}
  }

  lemma ViewPush(notes: seq<Note>, x: Note)
    ensures View(notes + [x]) ==
      if x.id < FIRST_EXTERNAL then View(notes)
      else if x.present then View(notes) + {x.id} else View(notes) - {x.id}
  {
    InitLast(notes, x);
  }

  lemma LivePush(devices: seq<Device>, d: Device)
    ensures LiveExternal(devices + [d]) == LiveExternal(devices) + if d.id >= FIRST_EXTERNAL then {d.id} else {}
  {
    var all := devices + [d];
    assert forall e :: e in all <==> e in devices || e == d;
  }

  lemma {:induction false} ViewAnnounced(notes: seq<Note>, devices: seq<Device>)
    ensures View(notes + Announced(devices)) == View(notes) + LiveExternal(devices)
  {
    if devices == [] {
      ConcatEmpty(notes);
    } else {
      var n := |devices| - 1;
      var d := devices[n];
      assert devices == devices[..n] + [d];
      ViewAnnounced(notes, devices[..n]);
      LivePush(devices[..n], d);
      if d.id >= FIRST_EXTERNAL {
        Assoc(notes, Announced(devices[..n]), [Note(d.id, true)]);
        ViewPush(notes + Announced(devices[..n]), Note(d.id, true));
      } else {
        ConcatEmpty(Announced(devices[..n]));
      }
    }
  }

  lemma LiveWithout(s: Manager, k: nat)
    requires Inv(s) && (|s.internal| <= FIRST_EXTERNAL || s.external == []) && k < |s.devices|
    ensures LiveExternal(Without(s.devices, k)) == LiveExternal(s.devices) - {s.devices[k].id}
  {
    var x, rest := s.devices[k], Without(s.devices, k);
    AllButOne(s.devices, k);
    assert x !in rest;
    DeviceIsFound(s, x);
  }

  lemma AllButOne(devices: seq<Device>, k: nat)
    requires k < |devices|
    ensures forall d :: d in devices <==> d in Without(devices, k) || d == devices[k]
  {
    assert devices == devices[..k] + [devices[k]] + devices[k + 1..];
  }

  lemma StepView(s: Manager, e: Event)
    requires Inv(s) && Enabled(s, e) && ViewIsRight(s) && (|s.internal| <= FIRST_EXTERNAL || s.external == [])
    ensures ViewIsRight(Step(s, e))
  {
    match e
    case Added(c, initialized) =>
      ViewPush(s.notes, Note(NewId(s, c), true));
      LivePush(s.devices, Device(NewId(s, c), c));
    case Removed(c) =>
      var k := IndexOf(s.devices, c);
      if k < |s.devices| {
        ViewPush(s.notes, Note(s.devices[k].id, false));
        LiveWithout(s, k);
      }
    case SetCallbacks => ViewAnnounced(s.notes, s.devices);
  }

  lemma {:induction false} ViewKept(s: Manager, es: seq<Event>)
    requires Inv(s) && Runs(s, es) && ViewIsRight(s)
    requires |Final(s, es).internal| <= FIRST_EXTERNAL || Final(s, es).external == []
    ensures ViewIsRight(Final(s, es))
    decreases es
  {
    if es != [] {
      StepKeeps(s, es[0]);
      NamesGrow(Step(s, es[0]), es[1..]);
      StepView(s, es[0]);
      ViewKept(Step(s, es[0]), es[1..]);
    }
  }

  /**
   * As long as ids are unique, the framework, once it has set its callbacks, knows exactly which
   * external cameras are there, whatever has been plugged in and out.
   */
  lemma FrameworkKnows(es: seq<Event>)
    requires Runs(Initial(), es)
    requires |Final(Initial(), es).internal| <= FIRST_EXTERNAL || Final(Initial(), es).external == []
    ensures ViewIsRight(Final(Initial(), es))
  {
    InitialInv();
    ViewKept(Initial(), es);
  }

  lemma {:induction false} NamesGrow(s: Manager, es: seq<Event>)
    requires Runs(s, es)
    ensures |s.internal| <= |Final(s, es).internal| && |s.external| <= |Final(s, es).external|
    decreases es
  {
    if es != [] {
      NamesGrow(Step(s, es[0]), es[1..]);
    }
  }

  /**
   * cameraRemoved needs the callbacks exactly for a live camera that was external when it got its
   * id; nothing keeps one from being removed before the framework has set them.
   */
  lemma RemovalNeedsCallbacks(s: Manager, c: Camera)
    requires Inv(s) && |s.internal| <= FIRST_EXTERNAL
    ensures NeedsCallbacks(s, c) <==> c.name !in s.internal && exists d :: d in s.devices && d.camera == c
  {
    var k := IndexOf(s.devices, c);
    if k < |s.devices| {
      assert s.devices[k] in s.devices;
      IdIsPlace(s, c.name);
    }
  }

  lemma RemovedTooEarly(c: Camera)
    requires c.external
    ensures Enabled(Initial(), Added(c, true)) && !Enabled(Step(Initial(), Added(c, true)), Removed(c))
  {
    var t := Step(Initial(), Added(c, true));
    assert t.devices == [Device(FIRST_EXTERNAL, c)];
    assert t.devices[..0] == [];
  }
}
