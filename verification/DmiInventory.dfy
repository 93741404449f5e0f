/** The hardware inventory of the device management interface: a component tree that plugging
    transceivers in and out edits in place.

    UUIDs are hashes of names in the source; here they are distinct by construction, that is, the
    hash is taken to be injective. Names and attributes of components are not modelled. */
module DmiInventory {
  import opened MachineIntegers
  import opened Options

  datatype Uuid =
    | CageUuid(id: uint32)
    | TransceiverUuid(id: uint32)
    | PortUuid(id: uint32)
    | PartUuid(number: nat) // fans, disk, processor, memory, sensor, power supply

  datatype Kind = Cage | TransceiverKind | Port | Fan | Storage | Processor | Memory | Sensor | PowerSupply

  datatype Component = Component(uuid: Uuid, kind: Kind, children: seq<Component>)

  datatype Transceiver = Transceiver(id: uint32, pons: seq<uint32>, pluggedIn: bool)

  // The children of the root while the device is managed, and the transceivers.
  datatype Dmi = Dmi(root: Option<seq<Component>>, transceivers: seq<Transceiver>)

  datatype Event = Start | Stop | PlugIn(id: uint32) | PlugOut(id: uint32)

  const PARTS: seq<Component> := [
    Component(PartUuid(1), Fan, []), Component(PartUuid(2), Fan, []), Component(PartUuid(3), Storage, []),
    Component(PartUuid(4), Processor, []), Component(PartUuid(5), Memory, []), Component(PartUuid(6), Sensor, []),
    Component(PartUuid(7), PowerSupply, [])]

  // createTransceiverComponent: a transceiver without PONs is an error.
  function TransceiverComponent(t: Transceiver): Option<Component> {
    if t.pons == [] then None
    else Some(Component(TransceiverUuid(t.id), TransceiverKind,
                        seq(|t.pons|, i requires 0 <= i < |t.pons| => Component(PortUuid(t.pons[i]), Port, []))))
  }

  // The cages of the first n transceivers; one whose component cannot be made gets no cage.
  function CagesUpTo(ts: seq<Transceiver>, n: nat): seq<Component>
    requires n <= |ts|
  {
    if n == 0 then []
    else
      var t := ts[n - 1];
      var c := TransceiverComponent(t);
      CagesUpTo(ts, n - 1) +
      if !t.pluggedIn then [Component(CageUuid(t.id), Cage, [])]
      else if c.None? then []
      else [Component(CageUuid(t.id), Cage, [c.value])]
  }

  function Inventory(ts: seq<Transceiver>): seq<Component> {
    CagesUpTo(ts, |ts|) + PARTS
  }

  // ----- searching

  // findComponent: depth first, a component before its children.
  function FindComponent(l: seq<Component>, uuid: Uuid): Option<Component> {
    if l == [] then None
    else if l[0].uuid == uuid then Some(l[0])
    else
      var found := FindComponent(l[0].children, uuid);
      if found.Some? then found else FindComponent(l[1..], uuid)
  }

  // The components of a kind, a component before its children.
  function OfKind(l: seq<Component>, kind: Kind): seq<Component> {
    if l == [] then []
    else (if l[0].kind == kind then [l[0]] else []) + OfKind(l[0].children, kind) + OfKind(l[1..], kind)
  }

  // getTransceiverWithId
  function Lookup(ts: seq<Transceiver>, id: uint32, from: nat): Option<nat>
    requires from <= |ts|
    decreases |ts| - from
  {
    if from == |ts| then None else if ts[from].id == id then Some(from) else Lookup(ts, id, from + 1)
  }

  // The first component with the UUID, from a position on.
  function Position(l: seq<Component>, uuid: Uuid, from: nat): (r: Option<nat>)
    requires from <= |l|
    ensures r.Some? ==> from <= r.value < |l| && l[r.value].uuid == uuid
    ensures r.None? ==> forall i :: from <= i < |l| ==> l[i].uuid != uuid
    decreases |l| - from
  {
    if from == |l| then None else if l[from].uuid == uuid then Some(from) else Position(l, uuid, from + 1)
  }

  // ----- plugging

  // The first cage of the transceiver that holds it.
  function CageHolding(root: seq<Component>, id: uint32, from: nat): (r: Option<nat>)
    requires from <= |root|
    ensures r.Some? ==> r.value < |root| && Position(root[r.value].children, TransceiverUuid(id), 0).Some?
    decreases |root| - from
  {
    if from == |root| then None
    else if root[from].uuid == CageUuid(id) && Position(root[from].children, TransceiverUuid(id), 0).Some? then Some(from)
    else CageHolding(root, id, from + 1)
  }

  function WithChildren(root: seq<Component>, i: nat, children: seq<Component>): seq<Component>
    requires i < |root|
  {
    root[i := root[i].(children := children)]
  }

  function WithPlugged(ts: seq<Transceiver>, k: nat, plugged: bool): seq<Transceiver>
    requires k < |ts|
  {
    ts[k := ts[k].(pluggedIn := plugged)]
  }

  // An operation that fails changes nothing.
  function Step(s: Dmi, e: Event): Dmi {
    match e
    case Start => s.(root := Some(Inventory(s.transceivers)))
    case Stop => s.(root := None)
    case PlugOut(id) =>
      var k := Lookup(s.transceivers, id, 0);
      if s.root.None? || k.None? || k.value >= |s.transceivers| || !s.transceivers[k.value].pluggedIn then s
      else
        var root := s.root.value;
        var i := CageHolding(root, id, 0);
        if i.None? then s
        else
          var children := root[i.value].children;
          var j := Position(children, TransceiverUuid(id), 0).value;
          Dmi(Some(WithChildren(root, i.value, children[..j] + children[j+1..])), WithPlugged(s.transceivers, k.value, false))
    case PlugIn(id) =>
      var k := Lookup(s.transceivers, id, 0);
      if s.root.None? || k.None? || k.value >= |s.transceivers| || s.transceivers[k.value].pluggedIn then s
      else
        var root := s.root.value;
        var i := Position(root, CageUuid(id), 0);
        var c := TransceiverComponent(s.transceivers[k.value]);
        if i.None? || c.None? then s
        else
          Dmi(Some(WithChildren(root, i.value, root[i.value].children + [c.value])), WithPlugged(s.transceivers, k.value, true))
  }

  function Run(s: Dmi, events: seq<Event>): Dmi {
    if events == [] then s else Step(Run(s, events[..|events|-1]), events[|events|-1])
  }

  // One transceiver per PON, plugged in, as StartDmiAPIServer makes them.
  function Boot(pons: uint32): Dmi {
    Dmi(None, seq(pons as nat, k requires 0 <= k < pons as nat => Transceiver(k as uint32, [k as uint32], true)))
  }

  // ----- the edited tree is always the tree that would be built anew

  ghost predicate GoodTransceivers(ts: seq<Transceiver>) {
    && (forall k :: 0 <= k < |ts| ==> ts[k].pons != [])
    && (forall j, k :: 0 <= j < k < |ts| ==> ts[j].id != ts[k].id)
  }

  // The cage of a transceiver.
  function CageOf(t: Transceiver): Component
    requires t.pons != []
  {
    Component(CageUuid(t.id), Cage, if t.pluggedIn then [TransceiverComponent(t).value] else [])
  }

  ghost predicate Consistent(s: Dmi) {
    GoodTransceivers(s.transceivers) && (s.root.Some? ==> s.root.value == Inventory(s.transceivers))
  }

  lemma {:induction false} CagesAt(ts: seq<Transceiver>, n: nat)
    requires n <= |ts| && forall k :: 0 <= k < |ts| ==> ts[k].pons != []
    ensures |CagesUpTo(ts, n)| == n
    ensures forall k :: 0 <= k < n ==> CagesUpTo(ts, n)[k] == CageOf(ts[k])
  {
    if n > 0 {
      CagesAt(ts, n - 1);
    }
  }

  lemma OneMoreCage(ts: seq<Transceiver>, n: nat)
    requires 0 < n <= |ts| && ts[n - 1].pons != []
    ensures CagesUpTo(ts, n) == CagesUpTo(ts, n - 1) + [CageOf(ts[n - 1])]
  {
  }

  // While managed, position k below the root is the cage of transceiver k, and the parts follow.
  lemma InventoryAt(ts: seq<Transceiver>)
    requires forall k :: 0 <= k < |ts| ==> ts[k].pons != []
    ensures |Inventory(ts)| == |ts| + |PARTS|
    ensures forall k :: 0 <= k < |ts| ==> Inventory(ts)[k] == CageOf(ts[k])
    ensures forall k :: |ts| <= k < |ts| + |PARTS| ==> Inventory(ts)[k] == PARTS[k - |ts|]
  {
    CagesAt(ts, |ts|);
  }

  lemma {:induction false} LookupFirst(ts: seq<Transceiver>, id: uint32, from: nat)
    requires from <= |ts|
    ensures var r := Lookup(ts, id, from);
      && (r.Some? ==> from <= r.value < |ts| && ts[r.value].id == id)
      && (r.None? ==> forall k :: from <= k < |ts| ==> ts[k].id != id)
    decreases |ts| - from
  {
    if from < |ts| {
      LookupFirst(ts, id, from + 1);
    }
  }

  lemma LookupIs(ts: seq<Transceiver>, k: nat)
    requires GoodTransceivers(ts) && k < |ts|
    ensures Lookup(ts, ts[k].id, 0) == Some(k)
  {
    LookupFirst(ts, ts[k].id, 0);
  }

  lemma {:induction false} HoldingIs(root: seq<Component>, id: uint32, i: nat, from: nat)
    requires from <= i < |root| && root[i].uuid == CageUuid(id)
    requires Position(root[i].children, TransceiverUuid(id), 0).Some?
    requires forall j :: 0 <= j < |root| && j != i ==> root[j].uuid != CageUuid(id)
    ensures CageHolding(root, id, from) == Some(i)
    decreases i - from
  {
    if from < i {
      HoldingIs(root, id, i, from + 1);
    }
  }

  // Where the cage of transceiver k is.
  lemma CageIs(ts: seq<Transceiver>, k: nat)
    requires GoodTransceivers(ts) && k < |ts|
    ensures k < |Inventory(ts)| && Inventory(ts)[k] == CageOf(ts[k])
    ensures forall i :: 0 <= i < |Inventory(ts)| && i != k ==> Inventory(ts)[i].uuid != CageUuid(ts[k].id)
    ensures Position(Inventory(ts), CageUuid(ts[k].id), 0) == Some(k)
  {
    InventoryAt(ts);
  }

  // Flipping one transceiver changes its cage only.
  lemma FlipIs(ts: seq<Transceiver>, k: nat, plugged: bool)
    requires GoodTransceivers(ts) && k < |ts|
    ensures k < |Inventory(ts)| && GoodTransceivers(WithPlugged(ts, k, plugged))
    ensures Inventory(WithPlugged(ts, k, plugged)) ==
            WithChildren(Inventory(ts), k, if plugged then [TransceiverComponent(ts[k]).value] else [])
  {
    var ts' := WithPlugged(ts, k, plugged);
    InventoryAt(ts);
    InventoryAt(ts');
    assert TransceiverComponent(ts'[k]) == TransceiverComponent(ts[k]);
  }

  // A plug operation on a managed, consistent inventory flips exactly the one transceiver and puts
  // it into, or takes it out of, its own cage; a wrong one is refused.
  lemma PlugEffect(s: Dmi, k: nat, plugged: bool)
    requires Consistent(s) && s.root.Some? && k < |s.transceivers|
    ensures var e := if plugged then PlugIn(s.transceivers[k].id) else PlugOut(s.transceivers[k].id);
      var t := s.transceivers[k];
      k < |s.root.value| &&
      Step(s, e) ==
      if t.pluggedIn == plugged then s
      else Dmi(Some(WithChildren(s.root.value, k, if plugged then [TransceiverComponent(t).value] else [])),
               WithPlugged(s.transceivers, k, plugged))
  {
    var ts, t := s.transceivers, s.transceivers[k];
    LookupIs(ts, k);
    CageIs(ts, k);
    if t.pluggedIn && !plugged {
      var cage := Inventory(ts)[k];
      assert cage.children[0].uuid == TransceiverUuid(t.id);
      assert Position(cage.children, TransceiverUuid(t.id), 0) == Some(0);
      HoldingIs(Inventory(ts), t.id, k, 0);
      assert cage.children[..0] + cage.children[1..] == [];
    } else if !t.pluggedIn && plugged {
      assert [] + [TransceiverComponent(t).value] == [TransceiverComponent(t).value];
    }
  }

  lemma StepKeepsConsistent(s: Dmi, e: Event)
    requires Consistent(s)
    ensures Consistent(Step(s, e))
  {
    if e.PlugIn? || e.PlugOut? {
      LookupFirst(s.transceivers, e.id, 0);
      var k := Lookup(s.transceivers, e.id, 0);
      if s.root.Some? && k.Some? {
        PlugEffect(s, k.value, e.PlugIn?);
        FlipIs(s.transceivers, k.value, e.PlugIn?);
      }
    }
  }

  // In every run the inventory of a managed device is the one that would be built anew from the
  // transceivers as they are.
  lemma {:induction false} InventoryInvariant(pons: uint32, events: seq<Event>)
    ensures Consistent(Run(Boot(pons), events))
  {
    if events != [] {
      InventoryInvariant(pons, events[..|events|-1]);
      StepKeepsConsistent(Run(Boot(pons), events[..|events|-1]), events[|events|-1]);
    }
  }

  // ----- what a search finds

  // The UUID occurs somewhere in the list.
  predicate Occurs(l: seq<Component>, uuid: Uuid) {
    l != [] && (l[0].uuid == uuid || Occurs(l[0].children, uuid) || Occurs(l[1..], uuid))
  }

  // A search succeeds exactly when the UUID occurs, and returns a component with that UUID.
  lemma {:induction false} FindIffOccurs(l: seq<Component>, uuid: Uuid)
    ensures FindComponent(l, uuid).Some? <==> Occurs(l, uuid)
    ensures FindComponent(l, uuid).Some? ==> FindComponent(l, uuid).value.uuid == uuid
  {
    if l != [] {
      FindIffOccurs(l[0].children, uuid);
      FindIffOccurs(l[1..], uuid);
    }
  }

  lemma {:induction false} FindInConcat(l: seq<Component>, m: seq<Component>, uuid: Uuid)
    ensures FindComponent(l + m, uuid) == if FindComponent(l, uuid).Some? then FindComponent(l, uuid) else FindComponent(m, uuid)
    decreases |l|
  {
    if l == [] {
      assert l + m == m;
    } else {
      FindInConcat(l[1..], m, uuid);
      assert (l + m)[1..] == l[1..] + m;
    }
  }

  lemma {:induction false} NoPort(ports: seq<Component>, id: uint32)
    requires forall i :: 0 <= i < |ports| ==> ports[i].kind == Port && ports[i].uuid.PortUuid? && ports[i].children == []
    ensures FindComponent(ports, TransceiverUuid(id)).None?
  {
    if ports != [] {
      NoPort(ports[1..], id);
    }
  }

  lemma FindInCage(t: Transceiver, id: uint32)
    requires t.pons != []
    ensures FindComponent([CageOf(t)], TransceiverUuid(id)) ==
            if t.pluggedIn && t.id == id then TransceiverComponent(t) else None
  {
    var c := TransceiverComponent(t).value;
    NoPort(c.children, id);
    assert [c][1..] == [] && [CageOf(t)][1..] == [];
    assert FindComponent([c], TransceiverUuid(id)) == if t.id == id then Some(c) else None;
  }

  lemma {:induction false} FindInCages(ts: seq<Transceiver>, id: uint32, n: nat)
    requires GoodTransceivers(ts) && n <= |ts|
    ensures var r := FindComponent(CagesUpTo(ts, n), TransceiverUuid(id));
      && (forall k :: 0 <= k < n && ts[k].id == id ==> r == if ts[k].pluggedIn then TransceiverComponent(ts[k]) else None)
      && ((forall k :: 0 <= k < n ==> ts[k].id != id) ==> r == None)
  {
    if n > 0 {
      FindInCages(ts, id, n - 1);
      FindInCage(ts[n - 1], id);
      FindInConcat(CagesUpTo(ts, n - 1), [CageOf(ts[n - 1])], TransceiverUuid(id));
      OneMoreCage(ts, n);
    }
  }

  lemma {:induction false} NotAPart(parts: seq<Component>, id: uint32)
    requires forall i :: 0 <= i < |parts| ==> parts[i].uuid.PartUuid? && parts[i].children == []
    ensures FindComponent(parts, TransceiverUuid(id)).None?
  {
    if parts != [] {
      NotAPart(parts[1..], id);
    }
  }

  // In every run, while the device is managed: a transceiver is plugged in exactly when its cage
  // holds it as its only child, exactly when a search from the root finds it.
  lemma PluggedIffFound(pons: uint32, events: seq<Event>, k: nat)
    requires k < |Run(Boot(pons), events).transceivers| && Run(Boot(pons), events).root.Some?
    ensures var s := Run(Boot(pons), events);
      var t := s.transceivers[k];
      var found := FindComponent(s.root.value, TransceiverUuid(t.id));
      && k < |s.root.value| && s.root.value[k].uuid == CageUuid(t.id)
      && (t.pluggedIn ==> TransceiverComponent(t).Some? && s.root.value[k].children == [TransceiverComponent(t).value])
      && (!t.pluggedIn ==> s.root.value[k].children == [])
      && found == (if t.pluggedIn then TransceiverComponent(t) else None)
      && (t.pluggedIn <==> found.Some?)
  {
    InventoryInvariant(pons, events);
    var s := Run(Boot(pons), events);
    var ts := s.transceivers;
    var id := ts[k].id;
    InventoryAt(ts);
    FindInConcat(CagesUpTo(ts, |ts|), PARTS, TransceiverUuid(id));
    FindInCages(ts, id, |ts|);
    NotAPart(PARTS, id);
  }

  // In every run the device is managed exactly when it was started and not stopped since.
  ghost predicate StartedAt(events: seq<Event>, i: nat) {
    i < |events| && events[i] == Start && forall j :: i < j < |events| ==> events[j] != Stop
  }

  lemma {:induction false} ManagedIffStarted(pons: uint32, events: seq<Event>)
    ensures Run(Boot(pons), events).root.Some? <==> exists i :: StartedAt(events, i)
  {
    if events != [] {
      var n := |events| - 1;
      ManagedIffStarted(pons, events[..n]);
      assert events[n] == Start ==> StartedAt(events, n);
      forall i: nat | i < n
        ensures StartedAt(events, i) <==> StartedAt(events[..n], i) && events[n] != Stop
      {
      }
    }
  }

  // The transceivers stay the same, one per PON, whatever becomes of their plugs.
  lemma {:induction false} SameTransceivers(pons: uint32, events: seq<Event>, k: nat)
    requires k < pons as nat
    ensures var ts := Run(Boot(pons), events).transceivers;
      |ts| == pons as nat && ts[k].id == k as uint32 && ts[k].pons == [k as uint32]
  {
    if events != [] {
      SameTransceivers(pons, events[..|events|-1], k);
    }
  }

  // The plug of a transceiver moves with the plug operations for it on a managed device, and only then.
  predicate Flips(s: Dmi, e: Event, id: uint32, plugged: bool) {
    s.root.Some? && e == if plugged then PlugIn(id) else PlugOut(id)
  }

  lemma PlugAfter(s: Dmi, e: Event, k: nat)
    requires Consistent(s) && k < |s.transceivers|
    ensures |Step(s, e).transceivers| == |s.transceivers|
    ensures var id := s.transceivers[k].id;
      Step(s, e).transceivers[k].pluggedIn <==> Flips(s, e, id, true) || (s.transceivers[k].pluggedIn && !Flips(s, e, id, false))
  {
    if e.PlugIn? || e.PlugOut? {
      LookupFirst(s.transceivers, e.id, 0);
      var j := Lookup(s.transceivers, e.id, 0);
      if s.root.Some? && j.Some? {
        PlugEffect(s, j.value, e.PlugIn?);
      }
    }
  }

  ghost predicate FlipsAt(pons: uint32, events: seq<Event>, i: nat, id: uint32, plugged: bool)
    requires i < |events|
  {
    Flips(Run(Boot(pons), events[..i]), events[i], id, plugged)
  }

  ghost predicate NotBackSince(pons: uint32, events: seq<Event>, from: nat, id: uint32) {
    forall j :: from <= j < |events| ==> !FlipsAt(pons, events, j, id, true)
  }

  // The transceiver was taken out and not put back since.
  ghost predicate OutAndNotBack(pons: uint32, events: seq<Event>, id: uint32) {
    exists i :: 0 <= i < |events| && FlipsAt(pons, events, i, id, false) && NotBackSince(pons, events, i + 1, id)
  }

  lemma SameEarlier(pons: uint32, events: seq<Event>, id: uint32)
    requires events != []
    ensures var n := |events| - 1;
      forall i, plugged :: 0 <= i < n ==> FlipsAt(pons, events[..n], i, id, plugged) == FlipsAt(pons, events, i, id, plugged)
  {
    var n := |events| - 1;
    assert forall i :: 0 <= i < n ==> events[..n][..i] == events[..i] && events[..n][i] == events[i];
  }

  lemma OutGrows(pons: uint32, events: seq<Event>, id: uint32)
    requires events != []
    ensures var n := |events| - 1;
      OutAndNotBack(pons, events, id) <==>
      FlipsAt(pons, events, n, id, false) || (OutAndNotBack(pons, events[..n], id) && !FlipsAt(pons, events, n, id, true))
  {
    var n := |events| - 1;
    SameEarlier(pons, events, id);
    assert NotBackSince(pons, events, n + 1, id);
    forall from: nat | from <= n
      ensures NotBackSince(pons, events, from, id) <==> NotBackSince(pons, events[..n], from, id) && !FlipsAt(pons, events, n, id, true)
    {
    }
  }

  // In every run a transceiver is plugged in unless it was taken out, on a managed device, and not put
  // back since.
  lemma {:induction false} PlugHistory(pons: uint32, events: seq<Event>, k: nat)
    requires k < pons as nat
    ensures var ts := Run(Boot(pons), events).transceivers;
      k < |ts| && (ts[k].pluggedIn <==> !OutAndNotBack(pons, events, k as uint32))
  {
    if events != [] {
      var n := |events| - 1;
      PlugHistory(pons, events[..n], k);
      SameTransceivers(pons, events[..n], k);
      InventoryInvariant(pons, events[..n]);
      PlugAfter(Run(Boot(pons), events[..n]), events[n], k);
      OutGrows(pons, events, k as uint32);
    }
  }

  lemma PortInCage(t: Transceiver, id: uint32)
    requires t.pons == [t.id]
    ensures FindComponent([CageOf(t)], PortUuid(id)) ==
            if t.pluggedIn && t.id == id then Some(Component(PortUuid(id), Port, [])) else None
  {
    var c, port := TransceiverComponent(t).value, Component(PortUuid(t.id), Port, []);
    assert c.children == [port];
    assert [port][1..] == [] && [c][1..] == [] && [CageOf(t)][1..] == [];
    assert FindComponent([port], PortUuid(id)) == if t.id == id then Some(port) else None;
    assert FindComponent([c], PortUuid(id)) == FindComponent([port], PortUuid(id));
  }

  lemma {:induction false} PortInCages(ts: seq<Transceiver>, id: uint32, n: nat)
    requires GoodTransceivers(ts) && n <= |ts| && forall k :: 0 <= k < |ts| ==> ts[k].pons == [ts[k].id]
    ensures var r := FindComponent(CagesUpTo(ts, n), PortUuid(id));
      && (forall k :: 0 <= k < n && ts[k].id == id ==> r == if ts[k].pluggedIn then Some(Component(PortUuid(id), Port, [])) else None)
      && ((forall k :: 0 <= k < n ==> ts[k].id != id) ==> r == None)
  {
    if n > 0 {
      PortInCages(ts, id, n - 1);
      PortInCage(ts[n - 1], id);
      FindInConcat(CagesUpTo(ts, n - 1), [CageOf(ts[n - 1])], PortUuid(id));
      OneMoreCage(ts, n);
    }
  }

  lemma {:induction false} NoPortPart(parts: seq<Component>, id: uint32)
    requires forall i :: 0 <= i < |parts| ==> parts[i].uuid.PartUuid? && parts[i].children == []
    ensures FindComponent(parts, PortUuid(id)).None?
  {
    if parts != [] {
      NoPortPart(parts[1..], id);
    }
  }

  // In every run, while the device is managed, a search finds the port of a PON exactly when the
  // transceiver of that PON is plugged in.
  lemma PortIffPlugged(pons: uint32, events: seq<Event>, k: nat)
    requires k < pons as nat && Run(Boot(pons), events).root.Some?
    ensures var s := Run(Boot(pons), events);
      k < |s.transceivers| &&
      FindComponent(s.root.value, PortUuid(k as uint32)) ==
      if s.transceivers[k].pluggedIn then Some(Component(PortUuid(k as uint32), Port, [])) else None
  {
    InventoryInvariant(pons, events);
    var ts := Run(Boot(pons), events).transceivers;
    forall j | 0 <= j < pons as nat
      ensures |ts| == pons as nat && ts[j].id == j as uint32 && ts[j].pons == [ts[j].id]
    {
      SameTransceivers(pons, events, j);
    }
    assert |ts| == pons as nat && ts[k].id == k as uint32;
    PortInCages(ts, k as uint32, |ts|);
    FindInConcat(CagesUpTo(ts, |ts|), PARTS, PortUuid(k as uint32));
    NoPortPart(PARTS, k as uint32);
  }

  // In every run a managed device has, behind the cages of its transceivers, two fans and one disk,
  // processor, memory, temperature sensor and power supply.
  lemma DeviceParts(pons: uint32, events: seq<Event>)
    requires Run(Boot(pons), events).root.Some?
    ensures var s := Run(Boot(pons), events);
      var root, n := s.root.value, |s.transceivers|;
      && |root| == n + 7
      && (forall i :: n <= i < n + 7 ==> root[i].children == [])
      && root[n].kind == Fan && root[n+1].kind == Fan && root[n+2].kind == Storage && root[n+3].kind == Processor
      && root[n+4].kind == Memory && root[n+5].kind == Sensor && root[n+6].kind == PowerSupply
  {
    InventoryInvariant(pons, events);
    InventoryAt(Run(Boot(pons), events).transceivers);
  }

  // Plugging a transceiver out and in again restores the whole state.
  lemma PlugRoundTrip(s: Dmi, k: nat)
    requires Consistent(s) && s.root.Some? && k < |s.transceivers| && s.transceivers[k].pluggedIn
    ensures Step(Step(s, PlugOut(s.transceivers[k].id)), PlugIn(s.transceivers[k].id)) == s
  {
    var s1 := Step(s, PlugOut(s.transceivers[k].id));
    StepKeepsConsistent(s, PlugOut(s.transceivers[k].id));
    PlugEffect(s, k, false);
    PlugEffect(s1, k, true);
    InventoryAt(s.transceivers);
    assert s1.transceivers[k := s.transceivers[k]] == s.transceivers;
    var back := Step(s1, PlugIn(s.transceivers[k].id));
    assert back.root.value[k] == s.root.value[k];
    assert back.root.value == s.root.value;
  }

  // ----- components of a kind

  lemma {:induction false} KindInConcat(l: seq<Component>, m: seq<Component>, kind: Kind)
    ensures OfKind(l + m, kind) == OfKind(l, kind) + OfKind(m, kind)
    decreases |l|
  {
    if l == [] {
      assert l + m == m;
    } else {
      KindInConcat(l[1..], m, kind);
      assert (l + m)[1..] == l[1..] + m && (l + m)[0] == l[0];
      var first := (if l[0].kind == kind then [l[0]] else []) + OfKind(l[0].children, kind);
      assert OfKind(l, kind) == first + OfKind(l[1..], kind);
      assert OfKind(l + m, kind) == first + (OfKind(l[1..], kind) + OfKind(m, kind));
    }
  }

  lemma KindOneMore(l: seq<Component>, i: nat, kind: Kind)
    requires i < |l|
    ensures OfKind(l[..i+1], kind) ==
            OfKind(l[..i], kind) + ((if l[i].kind == kind then [l[i]] else []) + OfKind(l[i].children, kind))
  {
    assert l[..i+1] == l[..i] + [l[i]];
    KindInConcat(l[..i], [l[i]], kind);
    assert [l[i]][1..] == [];
  }

  // findComponents: the collector grows by the components of the kind, in depth-first order.
  method FindComponents(l: seq<Component>, kind: Kind, collector: seq<Component>) returns (r: seq<Component>)
    ensures r == collector + OfKind(l, kind)
    decreases l
  {
    r := collector;
    for i := 0 to |l|
      invariant r == collector + OfKind(l[..i], kind)
    {
      if l[i].kind == kind {
        r := r + [l[i]];
      }
      r := FindComponents(l[i].children, kind, r);
      KindOneMore(l, i, kind);
    }
    assert l[..|l|] == l;
  }

  // The components of the transceivers that are plugged in.
  function Plugged(ts: seq<Transceiver>, n: nat): seq<Component>
    requires n <= |ts| && forall k :: 0 <= k < |ts| ==> ts[k].pons != []
  {
    if n == 0 then []
    else Plugged(ts, n - 1) + if ts[n - 1].pluggedIn then [TransceiverComponent(ts[n - 1]).value] else []
  }

  lemma {:induction false} PortsHaveNone(ports: seq<Component>)
    requires forall i :: 0 <= i < |ports| ==> ports[i].kind != TransceiverKind && ports[i].children == []
    ensures OfKind(ports, TransceiverKind) == []
  {
    if ports != [] {
      PortsHaveNone(ports[1..]);
    }
  }

  lemma KindInCage(t: Transceiver)
    requires t.pons != []
    ensures OfKind([CageOf(t)], TransceiverKind) == if t.pluggedIn then [TransceiverComponent(t).value] else []
  {
    var c := TransceiverComponent(t).value;
    PortsHaveNone(c.children);
    assert [c][1..] == [] && [CageOf(t)][1..] == [];
    assert OfKind([c], TransceiverKind) == [c];
  }

  lemma {:induction false} KindInCages(ts: seq<Transceiver>, n: nat)
    requires n <= |ts| && forall k :: 0 <= k < |ts| ==> ts[k].pons != []
    ensures OfKind(CagesUpTo(ts, n), TransceiverKind) == Plugged(ts, n)
  {
    if n > 0 {
      KindInCages(ts, n - 1);
      KindOfOneMore(ts, n);
    }
  }

  lemma KindOfOneMore(ts: seq<Transceiver>, n: nat)
    requires 0 < n <= |ts| && ts[n - 1].pons != []
    ensures OfKind(CagesUpTo(ts, n), TransceiverKind) ==
            OfKind(CagesUpTo(ts, n - 1), TransceiverKind) +
            if ts[n - 1].pluggedIn then [TransceiverComponent(ts[n - 1]).value] else []
  {
    OneMoreCage(ts, n);
    KindAdds(CagesUpTo(ts, n - 1), ts[n - 1]);
  }

  lemma KindAdds(l: seq<Component>, t: Transceiver)
    requires t.pons != []
    ensures OfKind(l + [CageOf(t)], TransceiverKind) ==
            OfKind(l, TransceiverKind) + if t.pluggedIn then [TransceiverComponent(t).value] else []
  {
    KindInCage(t);
    KindInConcat(l, [CageOf(t)], TransceiverKind);
  }

  lemma {:induction false} KindInInventory(ts: seq<Transceiver>)
    requires forall k :: 0 <= k < |ts| ==> ts[k].pons != []
    ensures OfKind(Inventory(ts), TransceiverKind) == Plugged(ts, |ts|)
  {
    PartsAddNone(CagesUpTo(ts, |ts|), PARTS);
    KindInCages(ts, |ts|);
  }

  lemma {:induction false} PartsAddNone(l: seq<Component>, parts: seq<Component>)
    requires forall i :: 0 <= i < |parts| ==> parts[i].kind != TransceiverKind && parts[i].children == []
    ensures OfKind(l + parts, TransceiverKind) == OfKind(l, TransceiverKind)
  {
    KindInConcat(l, parts, TransceiverKind);
    PortsHaveNone(parts);
  }

  // In every run, the transceivers a search by kind collects from a managed device are those that
  // are plugged in, in order.
  lemma TransceiversFound(pons: uint32, events: seq<Event>)
    requires Run(Boot(pons), events).root.Some?
    ensures var s := Run(Boot(pons), events);
      && GoodTransceivers(s.transceivers)
      && OfKind(s.root.value, TransceiverKind) == Plugged(s.transceivers, |s.transceivers|)
  {
    InventoryInvariant(pons, events);
    KindInInventory(Run(Boot(pons), events).transceivers);
  }

  // ----- the server

  class DmiServer {
    var root: Option<seq<Component>>
    var transceivers: seq<Transceiver>

    ghost function View(): Dmi
      reads this
    {
      Dmi(root, transceivers)
    }

    constructor (pons: uint32)
      ensures View() == Boot(pons)
    {
      root := None;
      transceivers := seq(pons as nat, k requires 0 <= k < pons as nat => Transceiver(k as uint32, [k as uint32], true));
    }

    method StartManagingDevice()
      modifies this`root
      ensures View() == Step(old(View()), Start)
    {
      var components: seq<Component> := [];
      for k := 0 to |transceivers|
        invariant root == old(root) && components == CagesUpTo(transceivers, k)
      {
        var t := transceivers[k];
        var children: seq<Component> := [];
        if t.pluggedIn {
          var c := TransceiverComponent(t);
          if c.None? {
            continue;
          }
          children := [c.value];
        }
        components := components + [Component(CageUuid(t.id), Cage, children)];
      }
      root := Some(components + PARTS);
    }

    method StopManagingDevice()
      modifies this`root
      ensures View() == Step(old(View()), Stop)
    {
      root := None;
    }

    method TransceiverWithId(id: uint32) returns (k: Option<nat>)
      ensures k == Lookup(transceivers, id, 0)
      ensures k.Some? ==> k.value < |transceivers| && transceivers[k.value].id == id
    {
      LookupFirst(transceivers, id, 0);
      for i := 0 to |transceivers|
        invariant Lookup(transceivers, id, 0) == Lookup(transceivers, id, i)
      {
        if transceivers[i].id == id {
          return Some(i);
        }
      }
      return None;
    }

    method PlugOutTransceiver(id: uint32) returns (ok: bool)
      modifies this
      ensures View() == Step(old(View()), PlugOut(id))
      ensures !ok ==> View() == old(View())
      ensures ok ==> exists k :: 0 <= k < |transceivers| && old(transceivers)[k].pluggedIn && !transceivers[k].pluggedIn
    {
      if root.None? {
        return false;
      }
      var k := TransceiverWithId(id);
      if k.None? || !transceivers[k.value].pluggedIn {
        return false;
      }
      var components := root.value;
      var cage, index := -1, -1;
      for i := 0 to |components|
        invariant root == old(root) && transceivers == old(transceivers)
        invariant CageHolding(components, id, 0) == CageHolding(components, id, i)
        invariant cage == -1
      {
        if components[i].uuid == CageUuid(id) {
          var j := FindChild(components[i].children, TransceiverUuid(id));
          if j.Some? {
            cage, index := i, j.value;
            break;
          }
        }
      }
      if cage == -1 {
        return false;
      }
      var children := components[cage].children;
      root := Some(WithChildren(components, cage, children[..index] + children[index+1..]));
      transceivers := WithPlugged(transceivers, k.value, false);
      return true;
    }

    method FindChild(l: seq<Component>, uuid: Uuid) returns (j: Option<nat>)
      ensures j == Position(l, uuid, 0)
    {
      for i := 0 to |l|
        invariant Position(l, uuid, 0) == Position(l, uuid, i)
      {
        if l[i].uuid == uuid {
          return Some(i);
        }
      }
      return None;
    }

    method PlugInTransceiver(id: uint32) returns (ok: bool)
      modifies this
      ensures View() == Step(old(View()), PlugIn(id))
      ensures !ok ==> View() == old(View())
      ensures ok ==> exists k :: 0 <= k < |transceivers| && !old(transceivers)[k].pluggedIn && transceivers[k].pluggedIn
    {
      if root.None? {
        return false;
      }
      var k := TransceiverWithId(id);
      if k.None? || transceivers[k.value].pluggedIn {
        return false;
      }
      var i := FindChild(root.value, CageUuid(id));
      if i.None? {
        return false;
      }
      var c := TransceiverComponent(transceivers[k.value]);
      if c.None? {
        return false;
      }
      root := Some(WithChildren(root.value, i.value, root.value[i.value].children + [c.value]));
      transceivers := WithPlugged(transceivers, k.value, true);
      return true;
    }
  }
}
