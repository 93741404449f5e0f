/** The OLT with its PONs and its flow resources: when FlowAdd meets an ONU that has no maps.

    PonLifecycle has the states of the ONUs, FlowAllocator the maps that ActivateOnu makes and FlowAdd
    writes into. Here both move together: the lookup of FlowAdd sees the ONUs as they are. An ONU is
    enabled by ActivateOnu, by its PON, or by a power-on after a shutdown. */
module FlowAdmission {
  import opened MachineIntegers
  import opened Options
  import opened StateMachines
  import opened OpenoltFlows
  import opened FlowResources
  import L = PonLifecycle
  import A = FlowAllocator

  datatype Olt = Olt(mode: L.Mode, pons: seq<L.Pon>, alloc: A.Allocator)

  datatype Event =
    | PonUp(pon: nat)
    | PonOff(pon: nat)
    | Fire(pon: nat, onu: nat, event: OnuEvent) // any ONU event but enable and pon_disable
    | PowerOn(pon: nat, onu: nat)
    | Activate(ponId: uint32, onu: nat, id: uint32)
    | FlowAdd(flow: Flow)
    | FlowRemove(flowId: uint64)
    | Transition(olt: OltEvent)

  // GetOnuById: the first ONU with the ID.
  function FindById(onus: seq<L.Onu>, id: uint32): (r: Option<nat>)
    ensures r.Some? ==> r.value < |onus| && onus[r.value].id == id
    ensures r.Some? ==> forall j :: 0 <= j < r.value ==> onus[j].id != id
    ensures r.None? ==> forall j :: 0 <= j < |onus| ==> onus[j].id != id
  {
    if onus == [] then None
    else if onus[0].id == id then Some(0)
    else
      var r := FindById(onus[1..], id);
      if r.None? then None else Some(r.value + 1)
  }

  // The ONU of the flow, if its PON exists.
  function OnuFor(s: Olt, f: Flow): Option<nat> {
    if PonOf(f) as nat < |s.pons| then FindById(s.pons[PonOf(f)].onus, OnuOf(f)) else None
  }

  predicate Admits(s: Olt, f: Flow) {
    var k := OnuFor(s, f);
    PonOf(f) as nat < |s.pons| && k.Some? && k.value < |s.pons[PonOf(f)].onus| &&
    s.pons[PonOf(f)].onus[k.value].state !in {PonDown, Disabled}
  }

  function WithPon(s: Olt, i: nat, p: L.Pon): Olt
    requires i < |s.pons|
  {
    s.(pons := s.pons[i := p])
  }

  ghost function Step(s: Olt, e: Event): (s': Olt)
    ensures |s'.pons| == |s.pons|
  {
    if !s.alloc.alive then s
    else match e
      case PonUp(i) => if i < |s.pons| then WithPon(s, i, L.TurnOn(s.mode, s.pons[i])) else s
      case PonOff(i) => if i < |s.pons| then WithPon(s, i, L.TurnOff(s.pons[i])) else s
      case Fire(i, k, ev) =>
        if i < |s.pons| && k < |s.pons[i].onus| && ev !in {OnuEvent.Enable, PonDisable}
        then WithPon(s, i, L.Send(s.pons[i], k, ev)) else s
      case PowerOn(i, k) =>
        if i < |s.pons| && k < |s.pons[i].onus| then WithPon(s, i, L.PowerOn(s.pons[i], k)) else s
      case Activate(i, k, id) =>
        var s1 := s.(alloc := A.Step(s.alloc, A.ActivateOnu(i, id)));
        if s1.alloc.alive && i as nat < |s.pons| && k < |s.pons[i].onus|
        then WithPon(s1, i as nat, L.Activate(s.pons[i], k, id)) else s1
      case FlowAdd(f) => s.(alloc := A.Step(s.alloc, A.FlowAdd(f, Admits(s, f))))
      case FlowRemove(id) => s.(alloc := A.Step(s.alloc, A.FlowRemove(id)))
      case Transition(ev) =>
        var s1 := s.(alloc := A.Step(s.alloc, A.OltTransition(ev)));
        if ev == OltDelete && NextOlt(s.alloc.olt, ev).Some?
        then s1.(pons := seq(|s.pons|, i requires 0 <= i < |s.pons| => L.Step(s.mode, s.pons[i], L.ClearAll)))
        else s1
  }

  function Boot(mode: L.Mode, pons: uint32, onus: uint32): Olt {
    Olt(mode, seq(pons as nat, i requires 0 <= i < pons as nat => L.Boot(i as uint32, onus)), A.Boot(pons))
  }

  ghost function Run(s: Olt, events: seq<Event>): (s': Olt)
    ensures |s'.pons| == |s.pons|
  {
    if events == [] then s else Step(Run(s, events[..|events|-1]), events[|events|-1])
  }

  // ----- ONUs and their maps

  // The OLT enabled the ONU at some time, and it was not started over since.
  predicate WasEnabled(s: OnuState) {
    Active(s) || s in {PonDown, Disabled}
  }

  ghost predicate PonMapped(s: Olt, i: nat)
    requires i < |s.pons|
  {
    forall k :: 0 <= k < |s.pons[i].onus| && WasEnabled(s.pons[i].onus[k].state) ==>
      i < TWO_TO_THE_32 && Activated(s.alloc.gems, i as uint32, s.pons[i].onus[k].id)
  }

  ghost predicate Mapped(s: Olt) {
    && A.Invariant(s.alloc)
    && s.alloc.olt !in {OltCreated, OltDeleted}
    && (forall i :: 0 <= i < |s.pons| ==> PonMapped(s, i))
  }

  // The ONUs of p' that were enabled are ONUs of p that were, under the same ID.
  ghost predicate NoneEnabled(p: L.Pon, p': L.Pon) {
    |p'.onus| == |p.onus| &&
    forall k :: 0 <= k < |p.onus| ==>
      p'.onus[k].id == p.onus[k].id && (WasEnabled(p'.onus[k].state) ==> WasEnabled(p.onus[k].state))
  }

  lemma CascadesEnableNone(mode: L.Mode, p: L.Pon)
    ensures NoneEnabled(p, L.TurnOn(mode, p)) && NoneEnabled(p, L.TurnOff(p))
  {
    forall k | 0 <= k < |p.onus|
      ensures var on, off := L.TurnOn(mode, p).onus[k], L.TurnOff(p).onus[k];
        && on.id == off.id == p.onus[k].id
        && (WasEnabled(on.state) || WasEnabled(off.state) ==> WasEnabled(p.onus[k].state))
    {
      if p.state == PonEnabled {
        L.OffState(p, k);
      } else {
        L.OnState(mode, p, k);
      }
    }
  }

  lemma SendEnablesNone(p: L.Pon, k: nat, e: OnuEvent)
    requires k < |p.onus| && e != OnuEvent.Enable
    ensures NoneEnabled(p, L.Send(p, k, e))
  {
    L.SendLocal(p, k, e);
  }

  lemma PowerOnEnablesNone(p: L.Pon, k: nat)
    requires k < |p.onus|
    ensures NoneEnabled(p, L.PowerOn(p, k))
  {
    var s := p.onus[k].state;
    L.SendAllLocal(p, k, L.PowerOnEvents(s));
    if s == Created {
      assert [Initialize, Discover][1..] == [Discover] && [Discover][1..] == [];
      assert L.AfterAll(Initialized, [Discover]) == L.AfterAll(Discovered, []);
    } else if s != Disabled {
      assert [Discover][1..] == [];
      assert L.AfterAll(s, [Discover]) == AfterOnuEvent(s, Discover);
    }
  }

  // A PON on which nothing was enabled, with the maps still there.
  lemma StaysMapped(s: Olt, i: nat, p: L.Pon)
    requires Mapped(s) && i < |s.pons| && NoneEnabled(s.pons[i], p)
    ensures Mapped(WithPon(s, i, p))
  {
    var s' := WithPon(s, i, p);
    forall j | 0 <= j < |s.pons|
      ensures PonMapped(s', j)
    {
      assert PonMapped(s, j);
    }
  }

  // A call that neither deletes nor initializes the OLT takes no maps away.
  lemma CallKeepsMaps(s: Olt, c: A.Call)
    requires Mapped(s) && !(c.OltTransition? && c.event in {OltDelete, OltInitialize})
    ensures Mapped(s.(alloc := A.Step(s.alloc, c)))
  {
    var s' := s.(alloc := A.Step(s.alloc, c));
    A.StepKeepsInvariant(s.alloc, c);
    forall i | 0 <= i < |s.pons|
      ensures PonMapped(s', i)
    {
      assert PonMapped(s, i);
      forall k | 0 <= k < |s.pons[i].onus| && WasEnabled(s.pons[i].onus[k].state)
        ensures Activated(s'.alloc.gems, i as uint32, s.pons[i].onus[k].id)
      {
        A.StepFacts(s.alloc, c, A.HasMaps(i as uint32, s.pons[i].onus[k].id));
      }
    }
  }

  lemma ActivateKeepsMaps(s: Olt, i: uint32, k: nat, id: uint32)
    requires Mapped(s) && s.alloc.alive
    ensures Mapped(Step(s, Activate(i, k, id)))
  {
    var s1 := s.(alloc := A.Step(s.alloc, A.ActivateOnu(i, id)));
    CallKeepsMaps(s, A.ActivateOnu(i, id));
    if s1.alloc.alive && i as nat < |s.pons| && k < |s.pons[i].onus| {
      var p := s.pons[i];
      var s' := WithPon(s1, i as nat, L.Activate(p, k, id));
      A.StepFacts(s.alloc, A.ActivateOnu(i, id), A.HasMaps(i, id));
      L.SendLocal(L.SetId(p, k, id), k, OnuEvent.Enable);
      forall j | 0 <= j < |s.pons|
        ensures PonMapped(s', j)
      {
        assert PonMapped(s1, j);
      }
    }
  }

  lemma StepKeepsMaps(s: Olt, e: Event)
    requires Mapped(s) && e != Transition(OltDelete)
    ensures Mapped(Step(s, e))
  {
    if s.alloc.alive {
      match e
      case PonUp(i) =>
        if i < |s.pons| {
          CascadesEnableNone(s.mode, s.pons[i]);
          StaysMapped(s, i, L.TurnOn(s.mode, s.pons[i]));
        }
      case PonOff(i) =>
        if i < |s.pons| {
          CascadesEnableNone(s.mode, s.pons[i]);
          StaysMapped(s, i, L.TurnOff(s.pons[i]));
        }
      case Fire(i, k, ev) =>
        if i < |s.pons| && k < |s.pons[i].onus| && ev !in {OnuEvent.Enable, PonDisable} {
          SendEnablesNone(s.pons[i], k, ev);
          StaysMapped(s, i, L.Send(s.pons[i], k, ev));
        }
      case PowerOn(i, k) =>
        if i < |s.pons| && k < |s.pons[i].onus| {
          PowerOnEnablesNone(s.pons[i], k);
          StaysMapped(s, i, L.PowerOn(s.pons[i], k));
        }
      case Activate(i, k, id) => ActivateKeepsMaps(s, i, k, id);
      case FlowAdd(f) => CallKeepsMaps(s, A.FlowAdd(f, Admits(s, f)));
      case FlowRemove(id) => CallKeepsMaps(s, A.FlowRemove(id));
      case Transition(ev) =>
        if ev == OltInitialize {
          assert A.Step(s.alloc, A.OltTransition(ev)) == s.alloc;
          assert s.(alloc := s.alloc) == s;
        } else {
          CallKeepsMaps(s, A.OltTransition(ev));
        }
    }
  }

  // In every run without an OLT delete, an ONU that is active, disabled or below a disabled PON has
  // its maps.
  lemma {:induction false} EnabledOnusAreMapped(mode: L.Mode, pons: uint32, onus: uint32, events: seq<Event>)
    requires Transition(OltDelete) !in events
    ensures Mapped(Run(Boot(mode, pons, onus), events))
  {
    if events == [] {
      A.ResourcesAreExclusive(pons, []);
    } else {
      var n := |events| - 1;
      EnabledOnusAreMapped(mode, pons, onus, events[..n]);
      StepKeepsMaps(Run(Boot(mode, pons, onus), events[..n]), events[n]);
    }
  }

  // So no flow for an active ONU ever makes FlowAdd panic there.
  lemma ActiveOnusTakeFlows(mode: L.Mode, pons: uint32, onus: uint32, events: seq<Event>, f: Flow)
    requires Transition(OltDelete) !in events && IsOnuFlow(f)
    requires var s := Run(Boot(mode, pons, onus), events);
      OnuFor(s, f).Some? && OnuFor(s, f).value < |s.pons[PonOf(f)].onus| && Active(s.pons[PonOf(f)].onus[OnuFor(s, f).value].state)
    ensures var s := Run(Boot(mode, pons, onus), events);
      s.alloc.alive ==> Step(s, FlowAdd(f)).alloc.alive
  {
    var s := Run(Boot(mode, pons, onus), events);
    EnabledOnusAreMapped(mode, pons, onus, events);
    assert PonMapped(s, PonOf(f) as nat);
    SamePons(mode, pons, onus, events);
  }

  lemma {:induction false} SamePons(mode: L.Mode, pons: uint32, onus: uint32, events: seq<Event>)
    ensures Run(Boot(mode, pons, onus), events).alloc.pons == pons
  {
    if events != [] {
      SamePons(mode, pons, onus, events[..|events|-1]);
    }
  }

  // ----- what the state of the ONU decides

  // ONU k is the one the flow names: the first of its PON with that ID.
  predicate Names(s: Olt, f: Flow, i: nat, k: nat) {
    && i < |s.pons| && k < |s.pons[i].onus|
    && f.accessIntfId as int % TWO_TO_THE_32 == i
    && s.pons[i].onus[k].id as int == f.onuId as int % TWO_TO_THE_32
    && (forall j :: 0 <= j < k ==> s.pons[i].onus[j].id as int != f.onuId as int % TWO_TO_THE_32)
  }

  // A flow for an ONU that is disabled or below a disabled PON is refused and changes nothing.
  lemma DownOnuRefuses(s: Olt, f: Flow, i: nat, k: nat)
    requires s.alloc.alive && s.alloc.pons as nat == |s.pons| && Names(s, f, i, k)
    requires s.pons[i].onus[k].state in {Disabled, PonDown}
    ensures Step(s, FlowAdd(f)) == s
  {
    NamedIsFound(s, f, i, k);
  }

  // So is one for an ONU ID that no ONU of the PON has.
  lemma MissingOnuRefuses(s: Olt, f: Flow)
    requires s.alloc.alive && s.alloc.pons as nat == |s.pons|
    requires f.accessIntfId as int % TWO_TO_THE_32 < |s.pons|
    requires var onus := s.pons[f.accessIntfId as int % TWO_TO_THE_32].onus;
      forall k :: 0 <= k < |onus| ==> onus[k].id as int != f.onuId as int % TWO_TO_THE_32
    ensures Step(s, FlowAdd(f)) == s
  {
    assert ToUint32(f.onuId) as int == f.onuId as int % TWO_TO_THE_32;
    assert OnuFor(s, f) == None;
  }

  // In any other state the ONU plays no part in the answer.
  lemma UpOnuDecidesNothing(s: Olt, f: Flow, i: nat, k: nat)
    requires s.alloc.alive && Names(s, f, i, k) && s.pons[i].onus[k].state !in {Disabled, PonDown}
    ensures Step(s, FlowAdd(f)).pons == s.pons
    ensures Step(s, FlowAdd(f)).alloc == A.Step(s.alloc, A.FlowAdd(f, true))
  {
    NamedIsFound(s, f, i, k);
  }

  lemma NamedIsFound(s: Olt, f: Flow, i: nat, k: nat)
    requires Names(s, f, i, k)
    ensures PonOf(f) as nat == i && OnuFor(s, f) == Some(k)
  {
    assert ToUint32(f.onuId) as int == f.onuId as int % TWO_TO_THE_32;
  }

  // What every event does to an ONU: nothing, unless it is for this ONU or its PON.
  lemma OnuAfter(s: Olt, e: Event, i: nat, k: nat)
    requires s.alloc.alive && i < |s.pons| && k < |s.pons[i].onus|
    ensures |Step(s, e).pons[i].onus| == |s.pons[i].onus|
    ensures var was, now := s.pons[i].onus[k].state, Step(s, e).pons[i].onus[k].state;
      match e
      case PonUp(p) =>
        now == if p == i && s.pons[i].state != PonEnabled then L.StateAfter(L.GoUp(s.mode, s.pons[i].state), was) else was
      case PonOff(p) => now == if p == i && s.pons[i].state == PonEnabled then L.StateAfter(L.GoDown, was) else was
      case Fire(p, o, ev) =>
        now == if p == i && o == k && ev !in {OnuEvent.Enable, PonDisable} then AfterOnuEvent(was, ev) else was
      case PowerOn(p, o) =>
        now == if p != i || o != k then was
               else if was in {Created, Initialized} then Discovered else if was == Disabled then Enabled else was
      case Activate(p, o, id) =>
        now == if p as nat == i && o == k && p in s.alloc.gems && p in s.alloc.allocs && was in {Discovered, PonDown} then Enabled else was
      case _ => now == was
  {
    var p := s.pons[i];
    match e
    case PonUp(j) =>
      if j == i && p.state != PonEnabled {
        L.OnState(s.mode, p, k);
      }
    case PonOff(j) =>
      if j == i && p.state == PonEnabled {
        L.OffState(p, k);
      }
    case Fire(j, o, ev) =>
      if j == i && o < |p.onus| {
        L.SendLocal(p, o, ev);
      }
    case PowerOn(j, o) =>
      if j == i && o < |p.onus| {
        L.PowerOnIs(p, o);
      }
    case Activate(j, o, id) =>
      if j as nat == i && o < |p.onus| {
        L.SendLocal(L.SetId(p, o, id), o, OnuEvent.Enable);
      }
    case _ =>
  }

  // ----- ONUs without maps

  // An ONU that is discovered and not yet activated: its flow is admitted, and FlowAdd panics.
  lemma DiscoveredOnuPanics(pons: uint32, onus: uint32, f: Flow)
    requires pons > 0 && onus > 0 && IsOnuFlow(f) && PonOf(f) == 0 && OnuOf(f) == 1
    ensures var s := Step(Boot(L.Default, pons, onus), PonUp(0));
      s.pons[0].onus[0].state == Discovered && Admits(s, f) && !Step(s, FlowAdd(f)).alloc.alive
  {
    var s0 := Boot(L.Default, pons, onus);
    L.OnState(L.Default, s0.pons[0], 0);
    var s := Step(s0, PonUp(0));
    assert s.pons[0].onus[0].id == 1;
    assert forall pon, onu :: !Activated(s.alloc.gems, pon, onu);
    EmptyIsValid(s.alloc, f);
  }

  lemma EmptyIsValid(a: A.Allocator, f: Flow)
    requires forall pon, onu :: !Activated(a.gems, pon, onu) && !Activated(a.allocs, pon, onu)
    ensures A.ValidFlow(a, f)
  {
  }

  // After an OLT delete and initialize, every admitted flow panics until its ONU is activated again,
  // whatever state the ONU is in.
  lemma DeletedOltPanics(s: Olt, f: Flow)
    requires s.alloc.alive && s.alloc.olt in {OltEnabled, OltDisabled}
    requires s.alloc.pons as nat == |s.pons| && IsOnuFlow(f)
    ensures var s1 := Step(Step(s, Transition(OltDelete)), Transition(OltInitialize));
      s1.alloc.alive && (Admits(s1, f) ==> !Step(s1, FlowAdd(f)).alloc.alive)
  {
    var s1 := Step(Step(s, Transition(OltDelete)), Transition(OltInitialize));
    ClearedAllocator(s.alloc);
    EmptyIsValid(s1.alloc, f);
  }

  // The delete also empties the tables of every PON, and leaves the ONUs in their states.
  lemma DeleteClearsPons(s: Olt, i: nat)
    requires s.alloc.alive && s.alloc.olt in {OltEnabled, OltDisabled} && i < |s.pons|
    ensures var p, p' := s.pons[i], Step(s, Transition(OltDelete)).pons[i];
      p'.onuIds == map[] && p'.gems == map[] && p'.allocs == map[] && p'.onus == p.onus && p'.state == p.state
  {
    L.DeleteEmpties(s.mode, s.pons[i]);
  }

  lemma ClearedAllocator(a: A.Allocator)
    requires a.alive && a.olt in {OltEnabled, OltDisabled}
    ensures var a1 := A.Step(A.Step(a, A.OltTransition(OltDelete)), A.OltTransition(OltInitialize));
      && a1.alive && a1.pons == a.pons
      && forall pon, onu :: !Activated(a1.gems, pon, onu) && !Activated(a1.allocs, pon, onu)
  {
  }
}
