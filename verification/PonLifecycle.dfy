/** One PON with its ONUs: the communicating state machines and the per-PON ID tables.

    An event and the callbacks it runs are one step. The source keys the owner of a table entry by
    the pointer to the ONU's serial number; here the owner is the position of the ONU on its PON. */
module PonLifecycle {
  import opened MachineIntegers
  import opened StateMachines

  // The controlled activation modes.
  datatype Mode = Default | OnlyOnu | OnlyPon | Both

  datatype Onu = Onu(id: uint32, state: OnuState, operUp: bool)

  datatype AllocKey = AllocKey(pon: uint32, onu: uint32, entity: uint16)
  datatype AllocVal = AllocVal(owner: nat, allocId: uint16)

  type OnuIds = map<uint32, nat>
  type GemPorts = map<uint16, nat>
  type AllocIds = map<AllocKey, AllocVal>

  datatype Pon = Pon(id: uint32, state: PonState, onus: seq<Onu>, onuIds: OnuIds, gems: GemPorts, allocs: AllocIds)

  datatype Event =
    | PonUp
    | PonOff
    | Fire(onu: nat, event: OnuEvent) // any ONU event but pon_disable, which only the PON sends
    | ActivateOnu(onu: nat, id: uint32)
    | ClearAll // the OLT was deleted
    | CreateGem(onu: nat, gem: uint16)
    | DeleteGem(onu: nat, gem: uint16)
    | SetTCont(onu: nat, entity: uint16, allocId: uint16)
    | MibReset(onu: nat)

  const MULTICAST_GEM: uint16 := 4069
  const NO_ALLOC: set<uint16> := {255, 65535}

  function GemsWithout(gems: GemPorts, onu: nat): GemPorts {
    map g | g in gems && gems[g] != onu :: gems[g]
  }

  function AllocsWithout(allocs: AllocIds, onu: nat): AllocIds {
    map a | a in allocs && allocs[a].owner != onu :: allocs[a]
  }

  // cleanupOnuState
  function Cleanup(p: Pon, k: nat): Pon
    requires k < |p.onus|
  {
    p.(onuIds := p.onuIds - {p.onus[k].id}, gems := GemsWithout(p.gems, k), allocs := AllocsWithout(p.allocs, k))
  }

  function WithState(p: Pon, k: nat, s: OnuState): Pon
    requires k < |p.onus|
  {
    p.(onus := p.onus[k := p.onus[k].(state := s)])
  }

  function WithOper(p: Pon, k: nat, up: bool): Pon
    requires k < |p.onus|
  {
    p.(onus := p.onus[k := p.onus[k].(operUp := up)])
  }

  // The entry callbacks of the ONU state machine.
  function Enter(p: Pon, k: nat, s: OnuState): Pon
    requires k < |p.onus|
  {
    match s
    case Initialized => WithOper(p, k, true)
    case Enabled => if p.onus[k].id in p.onuIds then p else p.(onuIds := p.onuIds[p.onus[k].id := k])
    case Disabled => WithOper(Cleanup(p, k), k, false)
    case PonDown => Cleanup(p, k)
    case _ => p
  }

  function Send(p: Pon, k: nat, e: OnuEvent): (p': Pon)
    requires k < |p.onus|
    ensures |p'.onus| == |p.onus|
  {
    if OnuAccepts(p.onus[k].state, e) then Enter(WithState(p, k, OnuTarget(e)), k, OnuTarget(e)) else p
  }

  function SendAll(p: Pon, k: nat, events: seq<OnuEvent>): (p': Pon)
    requires k < |p.onus|
    ensures |p'.onus| == |p.onus|
    decreases |events|
  {
    if events == [] then p else SendAll(Send(p, k, events[0]), k, events[1..])
  }

  // ----- what entering a PON state does to its ONUs

  // The PON goes down, or it comes up in some mode from some state.
  datatype Order = GoDown | GoUp(mode: Mode, from: PonState)

  // The events sent to an ONU in state s. A failed initialization skips the discovery.
  function EventsFor(o: Order, s: OnuState): seq<OnuEvent> {
    match o
    case GoDown => if s in {Initialized, Disabled} then [] else [PonDisable]
    case GoUp(mode, from) =>
      if from == PonCreated then
        if mode in {Default, OnlyPon} && OnuAccepts(s, Initialize) then [Initialize, Discover] else []
      else if mode in {OnlyOnu, Both} then [Initialize]
      else match s
        case PonDown => [Enable]
        case Disabled => [Initialize, Discover]
        case Initialized => [Discover]
        case _ => []
  }

  function TellOne(o: Order, p: Pon, k: nat): (p': Pon)
    requires k < |p.onus|
    ensures |p'.onus| == |p.onus|
  {
    SendAll(p, k, EventsFor(o, p.onus[k].state))
  }

  // The loop over the first n ONUs.
  function Cascade(o: Order, p: Pon, n: nat): (p': Pon)
    requires n <= |p.onus|
    ensures |p'.onus| == |p.onus|
  {
    if n == 0 then p else TellOne(o, Cascade(o, p, n - 1), n - 1)
  }

  function TurnOn(mode: Mode, p: Pon): (p': Pon)
    ensures |p'.onus| == |p.onus|
  {
    if p.state == PonEnabled then p else Cascade(GoUp(mode, p.state), p.(state := PonEnabled), |p.onus|)
  }

  function TurnOff(p: Pon): (p': Pon)
    ensures |p'.onus| == |p.onus|
  {
    if p.state != PonEnabled then p else Cascade(GoDown, p.(state := PonDisabled), |p.onus|)
  }

  // ----- events

  function SetId(p: Pon, k: nat, id: uint32): Pon
    requires k < |p.onus|
  {
    p.(onus := p.onus[k := p.onus[k].(id := id)])
  }

  function Activate(p: Pon, k: nat, id: uint32): (p': Pon)
    requires k < |p.onus|
    ensures |p'.onus| == |p.onus|
  {
    Send(SetId(p, k, id), k, Enable)
  }

  function TCont(p: Pon, k: nat, entity: uint16, allocId: uint16): Pon
    requires k < |p.onus|
  {
    var key := AllocKey(p.id, p.onus[k].id, entity);
    if allocId in NO_ALLOC then p.(allocs := p.allocs - {key})
    else if key in p.allocs then p
    else p.(allocs := p.allocs[key := AllocVal(k, allocId)])
  }

  // An event of a known ONU of this PON.
  predicate Addressed(p: Pon, e: Event) {
    match e
    case Fire(k, ev) => k < |p.onus| && ev != PonDisable
    case ActivateOnu(k, _) => k < |p.onus|
    case CreateGem(k, _) => k < |p.onus|
    case DeleteGem(k, _) => k < |p.onus|
    case SetTCont(k, _, _) => k < |p.onus|
    case MibReset(k) => k < |p.onus|
    case _ => true
  }

  function Step(mode: Mode, p: Pon, e: Event): (p': Pon)
    ensures |p'.onus| == |p.onus|
  {
    if !Addressed(p, e) then p
    else match e
      case PonUp => TurnOn(mode, p)
      case PonOff => TurnOff(p)
      case Fire(k, ev) => Send(p, k, ev)
      case ActivateOnu(k, id) => Activate(p, k, id)
      case ClearAll => p.(onuIds := map[], gems := map[], allocs := map[])
      case CreateGem(k, g) =>
        if g == MULTICAST_GEM || g in p.gems then p else p.(gems := p.gems[g := k])
      case DeleteGem(k, g) => p.(gems := p.gems - {g})
      case SetTCont(k, entity, allocId) => TCont(p, k, entity, allocId)
      case MibReset(k) => p.(gems := GemsWithout(p.gems, k), allocs := AllocsWithout(p.allocs, k))
  }

  function Boot(id: uint32, onus: uint32): Pon {
    Pon(id, PonCreated, seq(onus as nat, j requires 0 <= j < onus as nat => Onu((j + 1) as uint32, Created, false)),
        map[], map[], map[])
  }

  function Run(mode: Mode, p: Pon, events: seq<Event>): (p': Pon)
    ensures |p'.onus| == |p.onus|
  {
    if events == [] then p else Step(mode, Run(mode, p, events[..|events|-1]), events[|events|-1])
  }

  // ----- the joint invariant of ONU and PON states

  ghost predicate StatesAgree(p: Pon) {
    forall k :: 0 <= k < |p.onus| ==>
      && (p.onus[k].operUp <==> p.onus[k].state !in {Created, Disabled})
      && (p.onus[k].state == PonDown ==> p.state == PonDisabled)
  }

  // What a cascade does to the state of one ONU; the tables play no part in it.
  function StateAfter(o: Order, s: OnuState): OnuState {
    match o
    case GoDown => if OnuAccepts(s, PonDisable) then PonDown else s
    case GoUp(mode, from) =>
      if from == PonCreated then
        if mode in {Default, OnlyPon} && OnuAccepts(s, Initialize) then Discovered else s
      else if mode in {OnlyOnu, Both} then if OnuAccepts(s, Initialize) then Initialized else s
      else match s
        case PonDown => Enabled
        case Disabled => Discovered
        case Initialized => Discovered
        case _ => s
  }

  // A step that leaves every other ONU alone and keeps the ID of this one.
  ghost predicate OnlyChanges(p: Pon, p': Pon, k: nat) {
    && p'.id == p.id && p'.state == p.state
    && |p'.onus| == |p.onus|
    && (forall j :: 0 <= j < |p.onus| && j != k ==> p'.onus[j] == p.onus[j])
    && (k < |p.onus| ==> p'.onus[k].id == p.onus[k].id)
  }

  predicate OperAgrees(o: Onu) {
    o.operUp <==> o.state !in {Created, Disabled}
  }

  lemma EnterLocal(p: Pon, k: nat, s: OnuState)
    requires k < |p.onus|
    ensures OnlyChanges(p, Enter(p, k, s), k)
    ensures Enter(p, k, s).onus[k] ==
            p.onus[k].(operUp := if s == Initialized then true else if s == Disabled then false else p.onus[k].operUp)
  {
  }

  lemma SendLocal(p: Pon, k: nat, e: OnuEvent)
    requires k < |p.onus|
    ensures OnlyChanges(p, Send(p, k, e), k)
    ensures Send(p, k, e).onus[k].state == AfterOnuEvent(p.onus[k].state, e)
    ensures OperAgrees(p.onus[k]) ==> OperAgrees(Send(p, k, e).onus[k])
  {
    if OnuAccepts(p.onus[k].state, e) {
      EnterLocal(WithState(p, k, OnuTarget(e)), k, OnuTarget(e));
    }
  }

  function AfterAll(s: OnuState, events: seq<OnuEvent>): OnuState
    decreases |events|
  {
    if events == [] then s else AfterAll(AfterOnuEvent(s, events[0]), events[1..])
  }

  lemma {:induction false} SendAllLocal(p: Pon, k: nat, events: seq<OnuEvent>)
    requires k < |p.onus|
    ensures OnlyChanges(p, SendAll(p, k, events), k)
    ensures SendAll(p, k, events).onus[k].state == AfterAll(p.onus[k].state, events)
    ensures OperAgrees(p.onus[k]) ==> OperAgrees(SendAll(p, k, events).onus[k])
    decreases |events|
  {
    if events != [] {
      SendLocal(p, k, events[0]);
      SendAllLocal(Send(p, k, events[0]), k, events[1..]);
    }
  }

  lemma OrderedState(o: Order, s: OnuState)
    ensures AfterAll(s, EventsFor(o, s)) == StateAfter(o, s)
  {
    var es := EventsFor(o, s);
    if |es| > 0 {
      assert AfterAll(s, es) == AfterAll(AfterOnuEvent(s, es[0]), es[1..]);
      if |es| > 1 {
        var s1 := AfterOnuEvent(s, es[0]);
        assert es[1..][0] == es[1] && es[1..][1..] == [];
        assert AfterAll(s1, es[1..]) == AfterOnuEvent(s1, es[1]);
      }
    }
  }

  lemma TellOneLocal(o: Order, p: Pon, k: nat)
    requires k < |p.onus|
    ensures OnlyChanges(p, TellOne(o, p, k), k)
    ensures TellOne(o, p, k).onus[k].state == StateAfter(o, p.onus[k].state)
    ensures OperAgrees(p.onus[k]) ==> OperAgrees(TellOne(o, p, k).onus[k])
  {
    OrderedState(o, p.onus[k].state);
    SendAllLocal(p, k, EventsFor(o, p.onus[k].state));
  }

  lemma {:induction false} CascadeStates(o: Order, p: Pon, n: nat)
    requires n <= |p.onus|
    ensures var p' := Cascade(o, p, n);
      && p'.id == p.id && p'.state == p.state
      && (forall j :: 0 <= j < |p.onus| ==> p'.onus[j].id == p.onus[j].id)
      && (forall j :: 0 <= j < n ==> p'.onus[j].state == StateAfter(o, p.onus[j].state))
      && (forall j :: 0 <= j < |p.onus| && OperAgrees(p.onus[j]) ==> OperAgrees(p'.onus[j]))
      && (forall j :: n <= j < |p.onus| ==> p'.onus[j] == p.onus[j])
  {
    if n > 0 {
      CascadeStates(o, p, n - 1);
      TellOneLocal(o, Cascade(o, p, n - 1), n - 1);
    }
  }

  // The two cascades, as seen by one ONU.
  lemma OffState(p: Pon, k: nat)
    requires k < |p.onus| && p.state == PonEnabled
    ensures TurnOff(p).state == PonDisabled
    ensures TurnOff(p).onus[k].id == p.onus[k].id
    ensures TurnOff(p).onus[k].state == StateAfter(GoDown, p.onus[k].state)
    ensures OperAgrees(p.onus[k]) ==> OperAgrees(TurnOff(p).onus[k])
  {
    CascadeStates(GoDown, p.(state := PonDisabled), |p.onus|);
  }

  lemma OnState(mode: Mode, p: Pon, k: nat)
    requires k < |p.onus| && p.state != PonEnabled
    ensures TurnOn(mode, p).state == PonEnabled
    ensures TurnOn(mode, p).onus[k].id == p.onus[k].id
    ensures TurnOn(mode, p).onus[k].state == StateAfter(GoUp(mode, p.state), p.onus[k].state)
    ensures OperAgrees(p.onus[k]) ==> OperAgrees(TurnOn(mode, p).onus[k])
  {
    CascadeStates(GoUp(mode, p.state), p.(state := PonEnabled), |p.onus|);
  }

  lemma TurnOffStates(p: Pon)
    requires StatesAgree(p)
    ensures StatesAgree(TurnOff(p))
  {
    if p.state == PonEnabled {
      forall k | 0 <= k < |p.onus|
        ensures OperAgrees(TurnOff(p).onus[k]) && TurnOff(p).state == PonDisabled
      {
        OffState(p, k);
      }
    }
  }

  lemma TurnOnStates(mode: Mode, p: Pon)
    requires StatesAgree(p)
    ensures StatesAgree(TurnOn(mode, p))
  {
    if p.state != PonEnabled {
      forall k | 0 <= k < |p.onus|
        ensures OperAgrees(TurnOn(mode, p).onus[k]) && TurnOn(mode, p).onus[k].state != PonDown
      {
        OnState(mode, p, k);
      }
    }
  }

  lemma StepKeepsStates(mode: Mode, p: Pon, e: Event)
    requires StatesAgree(p)
    ensures StatesAgree(Step(mode, p, e))
  {
    assert forall k :: 0 <= k < |p.onus| ==> OperAgrees(p.onus[k]);
    if Addressed(p, e) {
      match e
      case PonUp => TurnOnStates(mode, p);
      case PonOff => TurnOffStates(p);
      case Fire(k, ev) => SendLocal(p, k, ev);
      case ActivateOnu(k, id) => SendLocal(SetId(p, k, id), k, Enable);
      case _ =>
    }
  }

  // What every event does to the state of the PON itself, with or without ONUs.
  lemma PonStates(mode: Mode, p: Pon, e: Event)
    ensures Step(mode, p, e).state ==
            if e == PonUp then PonEnabled
            else if e == PonOff && p.state == PonEnabled then PonDisabled
            else p.state
    ensures Step(mode, p, e).id == p.id
  {
    if Addressed(p, e) {
      match e
      case PonUp => CascadeStates(GoUp(mode, p.state), p.(state := PonEnabled), |p.onus|);
      case PonOff => CascadeStates(GoDown, p.(state := PonDisabled), |p.onus|);
      case Fire(k, ev) => SendLocal(p, k, ev);
      case ActivateOnu(k, id) => SendLocal(SetId(p, k, id), k, Enable);
      case _ =>
    }
  }

  // An OLT delete empties the three tables of a PON and leaves its ONUs as they are.
  lemma DeleteEmpties(mode: Mode, p: Pon)
    ensures var p' := Step(mode, p, ClearAll);
      p'.onuIds == map[] && p'.gems == map[] && p'.allocs == map[] && p'.onus == p.onus && p'.state == p.state
  {
  }

  // In every run, an ONU is operationally up iff it is neither created nor disabled, and it is
  // pon_disabled only below a disabled PON.
  lemma {:induction false} LifecycleInvariant(mode: Mode, id: uint32, onus: uint32, events: seq<Event>)
    ensures StatesAgree(Run(mode, Boot(id, onus), events))
  {
    if events != [] {
      var before := events[..|events|-1];
      LifecycleInvariant(mode, id, onus, before);
      StepKeepsStates(mode, Run(mode, Boot(id, onus), before), events[|events|-1]);
    }
  }

  // ----- the table of allocated ONU IDs

  // Every entry is the ID of an active ONU, recorded for that ONU.
  ghost predicate IdsSound(p: Pon) {
    forall id :: id in p.onuIds ==>
      p.onuIds[id] < |p.onus| && p.onus[p.onuIds[id]].id == id && Active(p.onus[p.onuIds[id]].state)
  }

  // Every active ONU has its entry.
  ghost predicate IdsComplete(p: Pon) {
    forall k :: 0 <= k < |p.onus| && Active(p.onus[k].state) ==> p.onus[k].id in p.onuIds && p.onuIds[p.onus[k].id] == k
  }

  // The table is exactly the map from ID to ONU of the active ONUs.
  ghost predicate IdsRight(p: Pon) {
    IdsSound(p) && IdsComplete(p)
  }

  // What the OLT owes the table when it activates an ONU: an active one keeps its ID, and one that
  // becomes active does not get the ID of another active one.
  predicate ProperActivation(p: Pon, k: nat, id: uint32)
    requires k < |p.onus|
  {
    && (Active(p.onus[k].state) ==> id == p.onus[k].id)
    && (OnuAccepts(p.onus[k].state, Enable) ==>
          forall j :: 0 <= j < |p.onus| && j != k && Active(p.onus[j].state) ==> p.onus[j].id != id)
  }

  // Activating an ONU keeps a right table right exactly when the activation is proper.
  lemma ActivationIsProper(p: Pon, k: nat, id: uint32)
    requires k < |p.onus| && IdsRight(p)
    ensures IdsRight(Activate(p, k, id)) <==> ProperActivation(p, k, id)
  {
    var p' := Activate(p, k, id);
    SendLocal(SetId(p, k, id), k, Enable);
    assert forall j :: 0 <= j < |p.onus| && j != k ==> p'.onus[j] == p.onus[j];
    if Active(p.onus[k].state) {
      assert p'.onuIds == p.onuIds && p.onuIds[p.onus[k].id] == k;
    } else if OnuAccepts(p.onus[k].state, Enable) {
      assert p'.onuIds == if id in p.onuIds then p.onuIds else p.onuIds[id := k];
      if id in p.onuIds {
        assert p.onuIds[id] != k && p.onus[p.onuIds[id]].id == id;
      }
    } else {
      assert p'.onuIds == p.onuIds;
    }
  }

  // ONUs that have an entry, or lost it to their PON and get it back without the OLT.
  predicate Tabled(s: OnuState) {
    Active(s) || s == PonDown
  }

  // Another such ONU has this ID.
  predicate Clashes(p: Pon, k: nat, id: uint32) {
    exists j :: 0 <= j < |p.onus| && j != k && Tabled(p.onus[j].state) && p.onus[j].id == id
  }

  ghost predicate NoClash(p: Pon) {
    forall k :: 0 <= k < |p.onus| && Tabled(p.onus[k].state) ==> !Clashes(p, k, p.onus[k].id)
  }

  // While two ONUs clash, one or two events without any new ID make the table wrong.
  lemma ClashBreaks(p: Pon, j: nat, k: nat)
    requires IdsRight(p) && j < |p.onus| && k < |p.onus| && j != k
    requires Tabled(p.onus[j].state) && Tabled(p.onus[k].state) && p.onus[j].id == p.onus[k].id
    ensures || !IdsRight(Send(p, j, Disable)) || !IdsRight(Send(p, k, Disable))
            || !IdsRight(Send(Send(p, j, Enable), k, Enable))
  {
    if Active(p.onus[j].state) {
      SendLocal(p, k, Disable);
      assert Send(p, k, Disable).onus[j] == p.onus[j];
    } else if Active(p.onus[k].state) {
      SendLocal(p, j, Disable);
      assert Send(p, j, Disable).onus[k] == p.onus[k];
    } else {
      var p1 := Send(p, j, Enable);
      SendLocal(p, j, Enable);
      SendLocal(p1, k, Enable);
      assert p.onus[j].id in p1.onuIds && p1.onuIds[p.onus[j].id] != k;
    }
  }

  // ONU k changed its state and the table followed: unchanged, without its ID, or with its ID.
  ghost predicate TableFollows(p: Pon, p': Pon, k: nat)
    requires k < |p.onus| && OnlyChanges(p, p', k)
  {
    var id := p.onus[k].id;
    || (p'.onuIds == p.onuIds && (Active(p'.onus[k].state) <==> Active(p.onus[k].state)))
    || (p'.onuIds == p.onuIds - {id} && !Active(p'.onus[k].state))
    || (p'.onuIds == p.onuIds[id := k] && Active(p'.onus[k].state))
  }

  // The ONU does not come among the others with an ID one of them has.
  predicate Welcome(p: Pon, k: nat)
    requires k < |p.onus|
  {
    !Clashes(p, k, p.onus[k].id)
  }

  lemma ClashesSame(p: Pon, p': Pon, k: nat, j: nat, id: uint32)
    requires k < |p.onus| && OnlyChanges(p, p', k)
    requires Tabled(p'.onus[k].state) ==> Tabled(p.onus[k].state) || j == k || p.onus[k].id != id
    requires Clashes(p', j, id)
    ensures Clashes(p, j, id)
  {
    var i :| 0 <= i < |p.onus| && i != j && Tabled(p'.onus[i].state) && p'.onus[i].id == id;
    assert Tabled(p.onus[i].state) && p.onus[i].id == id;
  }

  lemma FollowingKeepsClashes(p: Pon, p': Pon, k: nat)
    requires k < |p.onus| && OnlyChanges(p, p', k) && NoClash(p)
    requires Tabled(p'.onus[k].state) ==> Tabled(p.onus[k].state) || Welcome(p, k)
    ensures NoClash(p')
  {
    forall j | 0 <= j < |p.onus| && Tabled(p'.onus[j].state)
      ensures !Clashes(p', j, p'.onus[j].id)
    {
      var id := p'.onus[j].id;
      assert j != k ==> p'.onus[j] == p.onus[j];
      if Clashes(p', j, id) && (j == k || p.onus[k].id != id || Tabled(p.onus[k].state) || !Tabled(p'.onus[k].state)) {
        ClashesSame(p, p', k, j, id);
      }
    }
  }

  lemma FollowingKeepsIds(p: Pon, p': Pon, k: nat)
    requires k < |p.onus| && OnlyChanges(p, p', k) && TableFollows(p, p', k)
    requires IdsSound(p) && Welcome(p, k)
    ensures IdsSound(p')
    ensures IdsComplete(p) ==> IdsComplete(p')
  {
    assert forall j :: 0 <= j < |p.onus| && j != k && Active(p.onus[j].state) ==> p.onus[j].id != p.onus[k].id;
  }

  // Only an ONU that was discovered can be refused its place by another one.
  predicate ProperSend(p: Pon, k: nat, e: OnuEvent)
    requires k < |p.onus|
  {
    e == Enable && p.onus[k].state == Discovered ==> Welcome(p, k)
  }

  lemma SendFollows(p: Pon, k: nat, e: OnuEvent)
    requires k < |p.onus| && NoClash(p) && IdsSound(p) && ProperSend(p, k, e)
    requires Tabled(p.onus[k].state) || e == Enable
    ensures OnlyChanges(p, Send(p, k, e), k) && TableFollows(p, Send(p, k, e), k)
  {
    SendLocal(p, k, e);
    var id := p.onus[k].id;
    if OnuAccepts(p.onus[k].state, e) && e == Enable {
      assert id in p.onuIds ==> Tabled(p.onus[p.onuIds[id]].state);
    }
  }

  lemma SendIds(p: Pon, k: nat, e: OnuEvent)
    requires k < |p.onus| && NoClash(p) && IdsSound(p) && ProperSend(p, k, e)
    ensures NoClash(Send(p, k, e)) && IdsSound(Send(p, k, e))
    ensures IdsComplete(p) ==> IdsComplete(Send(p, k, e))
  {
    SendLocal(p, k, e);
    FollowingKeepsClashes(p, Send(p, k, e), k);
    if Tabled(p.onus[k].state) || (e == Enable && OnuAccepts(p.onus[k].state, e)) {
      SendFollows(p, k, e);
      FollowingKeepsIds(p, Send(p, k, e), k);
    } else {
      assert Send(p, k, e).onuIds == p.onuIds;
    }
  }

  lemma {:induction false} SendAllIds(p: Pon, k: nat, events: seq<OnuEvent>)
    requires k < |p.onus| && NoClash(p) && IdsSound(p)
    requires Enable !in events || (events == [Enable] && p.onus[k].state != Discovered)
    ensures NoClash(SendAll(p, k, events)) && IdsSound(SendAll(p, k, events))
    ensures IdsComplete(p) ==> IdsComplete(SendAll(p, k, events))
    decreases |events|
  {
    if events != [] {
      SendIds(p, k, events[0]);
      SendAllIds(Send(p, k, events[0]), k, events[1..]);
    }
  }

  lemma {:induction false} CascadeIds(o: Order, p: Pon, n: nat)
    requires n <= |p.onus| && NoClash(p) && IdsSound(p)
    ensures NoClash(Cascade(o, p, n)) && IdsSound(Cascade(o, p, n))
    ensures IdsComplete(p) ==> IdsComplete(Cascade(o, p, n))
  {
    if n > 0 {
      CascadeIds(o, p, n - 1);
      var q := Cascade(o, p, n - 1);
      SendAllIds(q, n - 1, EventsFor(o, q.onus[n - 1].state));
    }
  }

  // The state of the PON itself plays no part.
  lemma SameTables(p: Pon, s: PonState)
    requires NoClash(p) && IdsSound(p)
    ensures NoClash(p.(state := s)) && IdsSound(p.(state := s))
    ensures IdsComplete(p) ==> IdsComplete(p.(state := s))
  {
    forall k | 0 <= k < |p.onus| && Tabled(p.onus[k].state)
      ensures !Clashes(p.(state := s), k, p.onus[k].id)
    {
      assert !Clashes(p, k, p.onus[k].id);
    }
  }

  lemma TurnOffIds(p: Pon)
    requires NoClash(p) && IdsSound(p)
    ensures NoClash(TurnOff(p)) && IdsSound(TurnOff(p))
    ensures IdsComplete(p) ==> IdsComplete(TurnOff(p))
  {
    SameTables(p, PonDisabled);
    CascadeIds(GoDown, p.(state := PonDisabled), |p.onus|);
  }

  lemma TurnOnIds(mode: Mode, p: Pon)
    requires NoClash(p) && IdsSound(p)
    ensures NoClash(TurnOn(mode, p)) && IdsSound(TurnOn(mode, p))
    ensures IdsComplete(p) ==> IdsComplete(TurnOn(mode, p))
  {
    SameTables(p, PonEnabled);
    CascadeIds(GoUp(mode, p.state), p.(state := PonEnabled), |p.onus|);
  }

  // What a run owes the table: an active ONU keeps its ID, and an ONU that enters the table does so
  // with an ID that no other ONU has there or will get back there.
  predicate ProperEvent(p: Pon, e: Event) {
    match e
    case ActivateOnu(k, id) =>
      k < |p.onus| ==>
        && (Active(p.onus[k].state) ==> id == p.onus[k].id)
        && (OnuAccepts(p.onus[k].state, Enable) ==> !Clashes(p, k, id))
    case Fire(k, ev) => k < |p.onus| ==> ProperSend(p, k, ev)
    case _ => true
  }

  lemma ActivateIds(p: Pon, k: nat, id: uint32)
    requires k < |p.onus| && NoClash(p) && IdsSound(p) && ProperEvent(p, ActivateOnu(k, id))
    ensures NoClash(Activate(p, k, id)) && IdsSound(Activate(p, k, id))
    ensures IdsComplete(p) ==> IdsComplete(Activate(p, k, id))
  {
    var p1 := SetId(p, k, id);
    if OnuAccepts(p.onus[k].state, Enable) || Active(p.onus[k].state) {
      SetIdKeeps(p, k, id);
      SendIds(p1, k, Enable);
    } else {
      SetIdOutside(p, k, id);
      SendLocal(p1, k, Enable);
    }
  }

  lemma SetIdOutside(p: Pon, k: nat, id: uint32)
    requires k < |p.onus| && NoClash(p) && IdsSound(p) && !Tabled(p.onus[k].state)
    ensures NoClash(SetId(p, k, id)) && IdsSound(SetId(p, k, id))
    ensures IdsComplete(p) ==> IdsComplete(SetId(p, k, id))
  {
    var p1 := SetId(p, k, id);
    forall j, i | 0 <= j < |p.onus| && 0 <= i < |p.onus| && i != j && Tabled(p1.onus[j].state) && Tabled(p1.onus[i].state)
      ensures p1.onus[i].id != p1.onus[j].id
    {
      assert !Clashes(p, j, p.onus[j].id);
    }
  }

  lemma SetIdKeeps(p: Pon, k: nat, id: uint32)
    requires k < |p.onus| && NoClash(p) && IdsSound(p)
    requires Active(p.onus[k].state) ==> id == p.onus[k].id
    requires !Active(p.onus[k].state) ==> !Clashes(p, k, id)
    ensures var p1 := SetId(p, k, id);
      NoClash(p1) && IdsSound(p1) && Welcome(p1, k) && (IdsComplete(p) ==> IdsComplete(p1))
  {
    var p1 := SetId(p, k, id);
    forall j, i | 0 <= j < |p.onus| && 0 <= i < |p.onus| && i != j && (Tabled(p1.onus[j].state) || j == k) && Tabled(p1.onus[i].state)
      ensures p1.onus[i].id != p1.onus[j].id
    {
      if Active(p.onus[k].state) {
        assert p1.onus[i].id == p.onus[i].id && p1.onus[j].id == p.onus[j].id;
        assert !Clashes(p, j, p.onus[j].id);
      } else if i == k || j == k {
        assert !Clashes(p, k, id);
      } else {
        assert !Clashes(p, j, p.onus[j].id);
      }
    }
  }

  lemma StepIds(mode: Mode, p: Pon, e: Event)
    requires NoClash(p) && IdsSound(p) && ProperEvent(p, e)
    ensures NoClash(Step(mode, p, e)) && IdsSound(Step(mode, p, e))
    ensures IdsComplete(p) && e != ClearAll ==> IdsComplete(Step(mode, p, e))
  {
    if Addressed(p, e) {
      match e
      case PonUp => TurnOnIds(mode, p);
      case PonOff => TurnOffIds(p);
      case Fire(k, ev) => SendIds(p, k, ev);
      case ActivateOnu(k, id) => ActivateIds(p, k, id);
      case _ => SameOnus(p, Step(mode, p, e));
    }
  }

  lemma SameOnus(p: Pon, p': Pon)
    requires NoClash(p) && p'.onus == p.onus
    ensures NoClash(p')
  {
    forall k | 0 <= k < |p.onus| && Tabled(p.onus[k].state)
      ensures !Clashes(p', k, p.onus[k].id)
    {
      assert !Clashes(p, k, p.onus[k].id);
    }
  }

  ghost predicate ProperAt(mode: Mode, p: Pon, events: seq<Event>, i: nat)
    requires i < |events|
  {
    ProperEvent(Run(mode, p, events[..i]), events[i])
  }

  // In every such run the table holds IDs of active ONUs only; without an OLT delete it is exactly
  // the map from the IDs of the active ONUs to those ONUs.
  lemma {:induction false} OnuIdTable(mode: Mode, id: uint32, onus: uint32, events: seq<Event>)
    requires forall i :: 0 <= i < |events| ==> ProperAt(mode, Boot(id, onus), events, i)
    ensures var p := Run(mode, Boot(id, onus), events);
      && NoClash(p) && IdsSound(p)
      && (ClearAll !in events ==> IdsRight(p))
  {
    if events != [] {
      var n := |events| - 1;
      var before, p := events[..n], Boot(id, onus);
      assert forall i :: 0 <= i < n ==> before[..i] == events[..i] && before[i] == events[i];
      assert forall i :: 0 <= i < n ==> ProperAt(mode, p, events, i) == ProperAt(mode, p, before, i);
      OnuIdTable(mode, id, onus, before);
      assert ProperAt(mode, p, events, n);
      StepIds(mode, Run(mode, p, before), events[n]);
      assert ClearAll !in events ==> ClearAll !in before && events[n] != ClearAll;
    }
  }

  // ----- the same from a simpler promise

  predicate DistinctIds(p: Pon) {
    forall j, k :: 0 <= j < k < |p.onus| ==> p.onus[j].id != p.onus[k].id
  }

  // ActivateOnu goes to ONUs that are not active, with an ID no other ONU of the PON has.
  predicate FreshActivation(p: Pon, e: Event) {
    e.ActivateOnu? && e.onu < |p.onus| ==>
      !Active(p.onus[e.onu].state) && forall j :: 0 <= j < |p.onus| && j != e.onu ==> p.onus[j].id != e.id
  }

  ghost predicate FreshAt(mode: Mode, p: Pon, events: seq<Event>, i: nat)
    requires i < |events|
  {
    FreshActivation(Run(mode, p, events[..i]), events[i])
  }

  lemma FreshKeepsDistinct(mode: Mode, p: Pon, e: Event)
    requires DistinctIds(p) && FreshActivation(p, e)
    ensures DistinctIds(Step(mode, p, e)) && ProperEvent(p, e)
  {
    if Addressed(p, e) {
      match e
      case PonUp => CascadeStates(GoUp(mode, p.state), p.(state := PonEnabled), |p.onus|);
      case PonOff => CascadeStates(GoDown, p.(state := PonDisabled), |p.onus|);
      case Fire(k, ev) => SendLocal(p, k, ev);
      case ActivateOnu(k, id) => SendLocal(SetId(p, k, id), k, Enable);
      case _ =>
    }
  }

  // If no activation uses an ID that another ONU of the PON has, or goes to an active ONU, every event
  // of the run is proper, and so the table is right.
  lemma {:induction false} FreshRunsAreProper(mode: Mode, id: uint32, onus: uint32, events: seq<Event>)
    requires forall i :: 0 <= i < |events| ==> FreshAt(mode, Boot(id, onus), events, i)
    ensures DistinctIds(Run(mode, Boot(id, onus), events))
    ensures forall i :: 0 <= i < |events| ==> ProperAt(mode, Boot(id, onus), events, i)
  {
    if events != [] {
      var n := |events| - 1;
      var before, p := events[..n], Boot(id, onus);
      assert forall i :: 0 <= i < n ==> before[..i] == events[..i] && before[i] == events[i];
      assert forall i :: 0 <= i < n ==> FreshAt(mode, p, events, i) == FreshAt(mode, p, before, i);
      FreshRunsAreProper(mode, id, onus, before);
      assert forall i :: 0 <= i < n ==> ProperAt(mode, p, events, i) == ProperAt(mode, p, before, i);
      assert FreshAt(mode, p, events, n);
      FreshKeepsDistinct(mode, Run(mode, p, before), events[n]);
    }
  }

  // ----- bouncing a PON

  // The ONUs that lose their OMCI resources when the PON goes down.
  ghost predicate Bounced(p: Pon, k: nat) {
    k < |p.onus| && OnuAccepts(p.onus[k].state, PonDisable)
  }

  // The entries left once the first n ONUs were told that the PON is down.
  ghost function GemsAfterOff(p: Pon, n: nat): GemPorts {
    map g | g in p.gems && !(p.gems[g] < n && Bounced(p, p.gems[g])) :: p.gems[g]
  }

  ghost function AllocsAfterOff(p: Pon, n: nat): AllocIds {
    map a | a in p.allocs && !(p.allocs[a].owner < n && Bounced(p, p.allocs[a].owner)) :: p.allocs[a]
  }

  lemma OffOneTables(p: Pon, k: nat)
    requires k < |p.onus|
    ensures TellOne(GoDown, p, k).gems == if Bounced(p, k) then GemsWithout(p.gems, k) else p.gems
    ensures TellOne(GoDown, p, k).allocs == if Bounced(p, k) then AllocsWithout(p.allocs, k) else p.allocs
  {
    assert [PonDisable][1..] == [];
  }

  lemma {:induction false} OffTables(p: Pon, n: nat)
    requires n <= |p.onus|
    ensures Cascade(GoDown, p, n).gems == GemsAfterOff(p, n)
    ensures Cascade(GoDown, p, n).allocs == AllocsAfterOff(p, n)
  {
    if n > 0 {
      OffTables(p, n - 1);
      CascadeStates(GoDown, p, n - 1);
      var q := Cascade(GoDown, p, n - 1);
      OffOneTables(q, n - 1);
      assert Bounced(q, n - 1) <==> Bounced(p, n - 1);
      OneMoreOff(p, n);
    }
  }

  lemma OneMoreOff(p: Pon, n: nat)
    requires 0 < n <= |p.onus|
    ensures GemsAfterOff(p, n) == if Bounced(p, n - 1) then GemsWithout(GemsAfterOff(p, n - 1), n - 1) else GemsAfterOff(p, n - 1)
    ensures AllocsAfterOff(p, n) ==
            if Bounced(p, n - 1) then AllocsWithout(AllocsAfterOff(p, n - 1), n - 1) else AllocsAfterOff(p, n - 1)
  {
  }

  lemma {:induction false} SendAllTables(p: Pon, k: nat, events: seq<OnuEvent>)
    requires k < |p.onus| && Disable !in events && PonDisable !in events
    ensures SendAll(p, k, events).gems == p.gems
    ensures SendAll(p, k, events).allocs == p.allocs
    decreases |events|
  {
    if events != [] {
      SendAllTables(Send(p, k, events[0]), k, events[1..]);
    }
  }

  lemma {:induction false} UpTables(o: Order, p: Pon, n: nat)
    requires n <= |p.onus| && o.GoUp?
    ensures Cascade(o, p, n).gems == p.gems
    ensures Cascade(o, p, n).allocs == p.allocs
  {
    if n > 0 {
      UpTables(o, p, n - 1);
      var q := Cascade(o, p, n - 1);
      SendAllTables(q, n - 1, EventsFor(o, q.onus[n - 1].state));
    }
  }

  // A correct ID table is determined by the IDs and the activity of the ONUs.
  lemma SameIds(p: Pon, p': Pon)
    requires IdsRight(p) && IdsRight(p')
    requires |p.onus| == |p'.onus|
    requires forall k :: 0 <= k < |p.onus| ==>
      p'.onus[k].id == p.onus[k].id && (Active(p'.onus[k].state) <==> Active(p.onus[k].state))
    ensures p'.onuIds == p.onuIds
  {
    assert forall id :: id in p.onuIds ==> id in p'.onuIds && p'.onuIds[id] == p.onuIds[id];
    assert forall id :: id in p'.onuIds ==> id in p.onuIds;
  }

  lemma BounceStates(mode: Mode, p: Pon, k: nat)
    requires mode in {Default, OnlyPon} && p.state == PonEnabled && StatesAgree(p) && k < |p.onus|
    ensures var p' := TurnOn(mode, TurnOff(p));
      && p'.onus[k].id == p.onus[k].id
      && p'.onus[k].state == (if Bounced(p, k) then Enabled
                              else if p.onus[k].state in {Disabled, Initialized} then Discovered
                              else p.onus[k].state)
  {
    OffState(p, k);
    OnState(mode, TurnOff(p), k);
  }

  ghost predicate CorrectIds(p: Pon) {
    NoClash(p) && IdsRight(p)
  }

  lemma TurnKeepsIds(mode: Mode, p: Pon)
    requires CorrectIds(p)
    ensures CorrectIds(TurnOff(p)) && CorrectIds(TurnOn(mode, p))
  {
    TurnOffIds(p);
    TurnOnIds(mode, p);
  }

  lemma BounceIds(mode: Mode, p: Pon)
    requires mode in {Default, OnlyPon} && p.state == PonEnabled
    requires StatesAgree(p) && CorrectIds(p)
    ensures TurnOn(mode, TurnOff(p)).onuIds == p.onuIds
  {
    TurnKeepsIds(mode, p);
    TurnKeepsIds(mode, TurnOff(p));
    var p' := TurnOn(mode, TurnOff(p));
    forall k | 0 <= k < |p.onus|
      ensures p'.onus[k].id == p.onus[k].id && (Active(p'.onus[k].state) <==> Active(p.onus[k].state))
    {
      BounceStates(mode, p, k);
    }
    SameIds(p, p');
  }

  // When ONUs are activated by the PON (Default and OnlyPon), disabling and enabling an enabled PON
  // re-enables every ONU that took notice, keeps the ID table, and drops exactly those ONUs' GEM
  // port and alloc ID entries.
  lemma PonBounce(mode: Mode, p: Pon)
    requires mode in {Default, OnlyPon} && p.state == PonEnabled
    requires StatesAgree(p) && CorrectIds(p)
    ensures var p' := TurnOn(mode, TurnOff(p));
      && p'.state == PonEnabled
      && (forall k :: 0 <= k < |p.onus| ==>
            p'.onus[k].state == if OnuAccepts(p.onus[k].state, PonDisable) then Enabled
                                else if p.onus[k].state in {Disabled, Initialized} then Discovered
                                else p.onus[k].state)
      && p'.onuIds == p.onuIds
      && p'.gems == (map g | g in p.gems && !Bounced(p, p.gems[g]) :: p.gems[g])
      && p'.allocs == (map a | a in p.allocs && !Bounced(p, p.allocs[a].owner) :: p.allocs[a])
  {
    var off := p.(state := PonDisabled);
    CascadeStates(GoDown, off, |p.onus|);
    OffTables(off, |p.onus|);
    CascadeStates(GoUp(mode, PonDisabled), TurnOff(p).(state := PonEnabled), |p.onus|);
    UpTables(GoUp(mode, PonDisabled), TurnOff(p).(state := PonEnabled), |p.onus|);
    BounceIds(mode, p);
    forall k | 0 <= k < |p.onus|
      ensures TurnOn(mode, TurnOff(p)).onus[k].state ==
              if OnuAccepts(p.onus[k].state, PonDisable) then Enabled
              else if p.onus[k].state in {Disabled, Initialized} then Discovered
              else p.onus[k].state
    {
      BounceStates(mode, p, k);
    }
    AllOff(p, off);
  }

  lemma AllOff(p: Pon, off: Pon)
    requires off == p.(state := PonDisabled)
    ensures GemsAfterOff(off, |p.onus|) == map g | g in p.gems && !Bounced(p, p.gems[g]) :: p.gems[g]
    ensures AllocsAfterOff(off, |p.onus|) == map a | a in p.allocs && !Bounced(p, p.allocs[a].owner) :: p.allocs[a]
  {
  }

  // ----- rebooting an ONU

  function PowerOnEvents(s: OnuState): seq<OnuEvent> {
    match s
    case Created => [Initialize, Discover]
    case Disabled => [Initialize, Discover, Enable] // a power cycle needs no new activation
    case _ => [Discover]
  }

  function PowerOn(p: Pon, k: nat): (p': Pon)
    requires k < |p.onus|
    ensures |p'.onus| == |p.onus|
  {
    SendAll(p, k, PowerOnEvents(p.onus[k].state))
  }

  // A shutdown that is refused ends the reboot.
  function Reboot(p: Pon, k: nat): (p': Pon)
    requires k < |p.onus|
    ensures |p'.onus| == |p.onus|
  {
    if OnuAccepts(p.onus[k].state, Disable) then PowerOn(Send(p, k, Disable), k) else p
  }

  lemma RestartedState()
    ensures AfterAll(Disabled, PowerOnEvents(Disabled)) == Enabled
  {
    assert [Initialize, Discover, Enable][1..] == [Discover, Enable] && [Discover, Enable][1..] == [Enable];
    assert AfterAll(Discovered, [Enable]) == AfterAll(Enabled, [Enable][1..]) == Enabled;
    assert AfterAll(Initialized, [Discover, Enable]) == AfterAll(Discovered, [Enable]);
  }

  lemma OneEvent(p: Pon, k: nat, e: OnuEvent)
    requires k < |p.onus|
    ensures SendAll(p, k, [e]) == Send(p, k, e)
  {
    assert [e][1..] == [];
    assert SendAll(p, k, [e]) == SendAll(Send(p, k, e), k, []);
  }

  lemma TwoEvents(p: Pon, k: nat, e: OnuEvent, e': OnuEvent)
    requires k < |p.onus|
    ensures SendAll(p, k, [e, e']) == Send(Send(p, k, e), k, e')
  {
    assert [e, e'][1..] == [e'];
    assert SendAll(p, k, [e, e']) == SendAll(Send(p, k, e), k, [e']);
    OneEvent(Send(p, k, e), k, e');
  }

  lemma ThreeEvents(p: Pon, k: nat, e: OnuEvent, e': OnuEvent, e'': OnuEvent)
    requires k < |p.onus|
    ensures SendAll(p, k, [e, e', e'']) == Send(Send(Send(p, k, e), k, e'), k, e'')
  {
    assert [e, e', e''][1..] == [e', e''];
    assert SendAll(p, k, [e, e', e'']) == SendAll(Send(p, k, e), k, [e', e'']);
    TwoEvents(Send(p, k, e), k, e', e'');
  }

  // Powering on an ONU: it is discovered if it was new or initialized and enabled if it was disabled;
  // in any other state it stays. Only a disabled ONU can get its ID recorded, and nothing else changes.
  lemma PowerOnIs(p: Pon, k: nat)
    requires k < |p.onus|
    ensures var p', was := PowerOn(p, k), p.onus[k];
      && OnlyChanges(p, p', k)
      && p'.onus[k] == (if was.state == Created then Onu(was.id, Discovered, true)
                        else if was.state == Initialized then was.(state := Discovered)
                        else if was.state == Disabled then Onu(was.id, Enabled, true)
                        else was)
      && p'.onuIds == (if was.state == Disabled && was.id !in p.onuIds then p.onuIds[was.id := k] else p.onuIds)
      && p'.gems == p.gems && p'.allocs == p.allocs
  {
    OneEvent(p, k, Discover);
    TwoEvents(p, k, Initialize, Discover);
    ThreeEvents(p, k, Initialize, Discover, Enable);
  }

  // A reboot of an ONU that accepts the shutdown ends in enabled. It keeps the ID entry of an active
  // ONU, gives one to an ONU that had lost it to its PON, and costs the ONU exactly its own GEM port
  // and alloc ID entries.
  lemma RebootReturns(p: Pon, k: nat)
    requires k < |p.onus| && OnuAccepts(p.onus[k].state, Disable)
    requires IdsComplete(p)
    ensures var p' := Reboot(p, k);
      && OnlyChanges(p, p', k)
      && p'.onus[k] == Onu(p.onus[k].id, Enabled, true)
      && p'.onuIds == p.onuIds[p.onus[k].id := k]
      && (Active(p.onus[k].state) ==> p'.onuIds == p.onuIds)
      && p'.gems == GemsWithout(p.gems, k)
      && p'.allocs == AllocsWithout(p.allocs, k)
  {
    var p1 := Send(p, k, Disable);
    SendLocal(p, k, Disable);
    ThreeEvents(p1, k, Initialize, Discover, Enable);
    var p2 := Send(p1, k, Initialize);
    SendLocal(p1, k, Initialize);
    SendLocal(p2, k, Discover);
    SendLocal(Send(p2, k, Discover), k, Enable);
    assert p1.onuIds == p.onuIds - {p.onus[k].id} && Send(p2, k, Discover).onuIds == p1.onuIds;
  }

  // ----- ownership of what is recorded over OMCI

  // An entry of the GEM port table or of the alloc ID table.
  datatype Entry = GemEntry(gem: uint16, onu: nat) | AllocEntry(key: AllocKey, val: AllocVal)

  predicate Records(p: Pon, f: Entry) {
    match f
    case GemEntry(gem, onu) => gem in p.gems && p.gems[gem] == onu
    case AllocEntry(key, val) => key in p.allocs && p.allocs[key] == val
  }

  function OwnerOf(f: Entry): nat {
    if f.GemEntry? then f.onu else f.val.owner
  }

  // The event records the entry: a GEM port that nobody has, or an alloc ID for an entity that has
  // none under the ID the ONU has now.
  predicate Claims(p: Pon, e: Event, f: Entry) {
    OwnerOf(f) < |p.onus| &&
    match f
    case GemEntry(gem, onu) => e == CreateGem(onu, gem) && gem != 4069 && gem !in p.gems
    case AllocEntry(key, val) =>
      && e == SetTCont(val.owner, key.entity, val.allocId)
      && key == AllocKey(p.id, p.onus[val.owner].id, key.entity)
      && val.allocId != 255 && val.allocId != 65535 && key !in p.allocs
  }

  // The event ends it: anyone may delete a GEM port, and any ONU an alloc ID recorded under the ID it
  // has now; the owner loses everything on a MIB reset, when it is disabled, when its PON takes it
  // down, and when the OLT is deleted.
  predicate Releases(p: Pon, e: Event, f: Entry) {
    match e
    case DeleteGem(k, gem) => k < |p.onus| && f.GemEntry? && f.gem == gem
    case SetTCont(k, entity, allocId) =>
      k < |p.onus| && f.AllocEntry? && (allocId == 255 || allocId == 65535) && f.key == AllocKey(p.id, p.onus[k].id, entity)
    case MibReset(k) => k < |p.onus| && k == OwnerOf(f)
    case Fire(k, ev) => k < |p.onus| && k == OwnerOf(f) && ev == Disable && OnuAccepts(p.onus[k].state, Disable)
    case PonOff => p.state == PonEnabled && OwnerOf(f) < |p.onus| && OnuAccepts(p.onus[OwnerOf(f)].state, PonDisable)
    case ClearAll => true
    case _ => false
  }

  lemma SendOwners(p: Pon, k: nat, e: OnuEvent, f: Entry)
    requires k < |p.onus|
    ensures Records(Send(p, k, e), f) <==>
            Records(p, f) && !(k == OwnerOf(f) && e in {Disable, PonDisable} && OnuAccepts(p.onus[k].state, e))
  {
  }

  lemma TurnOwners(mode: Mode, p: Pon, f: Entry)
    ensures Records(TurnOn(mode, p), f) <==> Records(p, f)
    ensures Records(TurnOff(p), f) <==>
            Records(p, f) && !(p.state == PonEnabled && OwnerOf(f) < |p.onus| && OnuAccepts(p.onus[OwnerOf(f)].state, PonDisable))
  {
    UpTables(GoUp(mode, p.state), p.(state := PonEnabled), |p.onus|);
    OffTables(p.(state := PonDisabled), |p.onus|);
  }

  lemma StepOwners(mode: Mode, p: Pon, e: Event, f: Entry)
    ensures Records(Step(mode, p, e), f) <==> Claims(p, e, f) || (Records(p, f) && !Releases(p, e, f))
  {
    if Addressed(p, e) {
      match e
      case PonUp => TurnOwners(mode, p, f);
      case PonOff => TurnOwners(mode, p, f);
      case Fire(k, ev) => SendOwners(p, k, ev, f);
      case ActivateOnu(k, id) => SendOwners(SetId(p, k, id), k, Enable, f);
      case _ =>
    }
  }

  ghost predicate ClaimedAt(mode: Mode, p: Pon, events: seq<Event>, i: nat, f: Entry)
    requires i < |events|
  {
    Claims(Run(mode, p, events[..i]), events[i], f)
  }

  ghost predicate ReleasedAt(mode: Mode, p: Pon, events: seq<Event>, i: nat, f: Entry)
    requires i < |events|
  {
    Releases(Run(mode, p, events[..i]), events[i], f)
  }

  ghost predicate NotReleasedSince(mode: Mode, p: Pon, events: seq<Event>, from: nat, f: Entry) {
    forall j :: from <= j < |events| ==> !ReleasedAt(mode, p, events, j, f)
  }

  ghost predicate ClaimedAndNotReleased(mode: Mode, p: Pon, events: seq<Event>, f: Entry) {
    exists i :: 0 <= i < |events| && ClaimedAt(mode, p, events, i, f) && NotReleasedSince(mode, p, events, i + 1, f)
  }

  lemma SameEarlier(mode: Mode, p: Pon, events: seq<Event>, f: Entry)
    requires events != []
    ensures var n := |events| - 1;
      forall i :: 0 <= i < n ==>
        && ClaimedAt(mode, p, events[..n], i, f) == ClaimedAt(mode, p, events, i, f)
        && ReleasedAt(mode, p, events[..n], i, f) == ReleasedAt(mode, p, events, i, f)
  {
    var n := |events| - 1;
    assert forall i :: 0 <= i < n ==> events[..n][..i] == events[..i] && events[..n][i] == events[i];
  }

  lemma ClaimsGrow(mode: Mode, p: Pon, events: seq<Event>, f: Entry)
    requires events != []
    ensures var n := |events| - 1;
      ClaimedAndNotReleased(mode, p, events, f) <==>
      ClaimedAt(mode, p, events, n, f) ||
      (ClaimedAndNotReleased(mode, p, events[..n], f) && !ReleasedAt(mode, p, events, n, f))
  {
    var n := |events| - 1;
    SameEarlier(mode, p, events, f);
    assert NotReleasedSince(mode, p, events, n + 1, f);
    forall from: nat | from <= n
      ensures NotReleasedSince(mode, p, events, from, f) <==>
              NotReleasedSince(mode, p, events[..n], from, f) && !ReleasedAt(mode, p, events, n, f)
    {
    }
  }

  // In every run a GEM port or an alloc ID is recorded for exactly the ONU whose accepted request
  // recorded it and was not undone since.
  lemma {:induction false} OwnershipIsHistory(mode: Mode, id: uint32, onus: uint32, events: seq<Event>, f: Entry)
    ensures Records(Run(mode, Boot(id, onus), events), f) <==> ClaimedAndNotReleased(mode, Boot(id, onus), events, f)
  {
    if events != [] {
      var n := |events| - 1;
      OwnershipIsHistory(mode, id, onus, events[..n], f);
      StepOwners(mode, Run(mode, Boot(id, onus), events[..n]), events[n], f);
      ClaimsGrow(mode, Boot(id, onus), events, f);
    }
  }

  // The multicast GEM port is never recorded.
  lemma MulticastIsFree(mode: Mode, id: uint32, onus: uint32, events: seq<Event>)
    ensures 4069 !in Run(mode, Boot(id, onus), events).gems
  {
    var p := Run(mode, Boot(id, onus), events);
    if MULTICAST_GEM in p.gems {
      OwnershipIsHistory(mode, id, onus, events, GemEntry(MULTICAST_GEM, p.gems[MULTICAST_GEM]));
    }
  }
}
