/** Flow resource allocation by the OLT, one gRPC call at a time.

    FlowAdd validates and stores in separate critical sections; the statements here are about
    calls that do not overlap. What FlowAdd learns from the ONU itself (it exists and is neither
    disabled nor below a disabled PON) is the parameter admitted. A run-time panic of the source,
    a write into a map that was never created, stops the device: alive becomes false. */
module FlowAllocator {
  import opened MachineIntegers
  import opened Options
  import opened StateMachines
  import opened OpenoltFlows
  import opened FlowResources

  // The two kinds of resource a flow uses, each with its own table.
  datatype Kind = GemPort | AllocId

  datatype Allocator = Allocator(pons: uint32, gems: Table, allocs: Table, olt: OltState, alive: bool)

  datatype Call =
    | ActivateOnu(pon: uint32, onu: uint32)
    | FlowAdd(flow: Flow, admitted: bool)
    | FlowRemove(flowId: uint64)
    | OltTransition(event: OltEvent)

  datatype Outcome = Ignored | Refused | Panicked | Accepted

  function TableOf(s: Allocator, k: Kind): Table {
    if k == GemPort then s.gems else s.allocs
  }

  // A replicated flow uses one GEM port per value of its p-bit map.
  function ResourcesOf(f: Flow, k: Kind): set<int32> {
    match k
    case AllocId => {f.allocId}
    case GemPort =>
      if f.replicateFlow then set pbit | pbit in f.pbitToGemport :: ToInt32(f.pbitToGemport[pbit]) else {f.gemportId}
  }

  ghost predicate ValidFlow(s: Allocator, f: Flow) {
    forall k: Kind :: !UsedElsewhere(TableOf(s, k), PonOf(f), OnuOf(f), ResourcesOf(f, k))
  }

  ghost function FlowAddOutcome(s: Allocator, f: Flow, admitted: bool): Outcome {
    if !IsOnuFlow(f) then Ignored
    else if PonOf(f) >= s.pons then Panicked // the lookup of the ONU dereferences a nil PON
    else if !admitted || !ValidFlow(s, f) then Refused
    else if !Activated(s.gems, PonOf(f), OnuOf(f)) || !Activated(s.allocs, PonOf(f), OnuOf(f)) then Panicked
    else Outcome.Accepted
  }

  function WithFlows(m: PortTable, ids: set<int32>, flow: uint64): PortTable {
    map r | r in m.Keys + ids :: (if r in m then m[r] else {}) + (if r in ids then {flow} else {})
  }

  function StoredAll(t: Table, pon: uint32, onu: uint32, port: uint32, ids: set<int32>, flow: uint64): Table
    requires Activated(t, pon, onu)
  {
    if ids == {} then t else WithPort(t, pon, onu, port, WithFlows(PortAt(t, pon, onu, port), ids, flow))
  }

  function StoredFlow(t: Table, f: Flow, k: Kind): Table
    requires Activated(t, PonOf(f), OnuOf(f))
  {
    StoredAll(t, PonOf(f), OnuOf(f), f.portNo, ResourcesOf(f, k), f.flowId)
  }

  ghost function Step(s: Allocator, c: Call): Allocator {
    if !s.alive then s
    else match c
      case ActivateOnu(pon, onu) =>
        if pon in s.gems && pon in s.allocs
        then s.(gems := OnuReset(s.gems, pon, onu), allocs := OnuReset(s.allocs, pon, onu))
        else s.(alive := false)
      case FlowAdd(f, admitted) =>
        (match FlowAddOutcome(s, f, admitted)
         case Accepted => s.(gems := StoredFlow(s.gems, f, GemPort), allocs := StoredFlow(s.allocs, f, AllocId))
         case Panicked => s.(alive := false)
         case _ => s)
      case FlowRemove(id) => s.(gems := Freed(s.gems, id), allocs := Freed(s.allocs, id))
      case OltTransition(e) =>
        match NextOlt(s.olt, e)
        case None => s
        case Some(n) =>
          if e == OltInitialize then
            s.(olt := n, gems := s.gems + EmptyPons(s.pons), allocs := s.allocs + EmptyPons(s.pons))
          else if e == OltDelete then s.(olt := n, gems := map[], allocs := map[])
          else s.(olt := n)
  }

  function Boot(pons: uint32): Allocator {
    Allocator(pons, EmptyPons(pons), EmptyPons(pons), OltInitialized, true)
  }

  ghost function Run(s: Allocator, calls: seq<Call>): Allocator {
    if calls == [] then s else Step(Run(s, calls[..|calls|-1]), calls[|calls|-1])
  }

  // ----- exclusivity

  // A resource of a PON is recorded below at most one of its ONUs.
  ghost predicate Exclusive(t: Table) {
    forall e: Entry, e': Entry ::
      Records(t, e) && Records(t, e') && e.pon == e'.pon && e.res == e'.res ==> e.onu == e'.onu
  }

  ghost predicate WellFormed(t: Table, pons: uint32) {
    NoEmptyResource(t) && (forall pon :: pon in t ==> pon < pons)
  }

  ghost predicate Invariant(s: Allocator) {
    && (forall k: Kind :: WellFormed(TableOf(s, k), s.pons) && Exclusive(TableOf(s, k)))
    && s.gems.Keys == s.allocs.Keys
    && (forall pon, onu :: Activated(s.gems, pon, onu) <==> Activated(s.allocs, pon, onu))
  }

  lemma StoredAllEntries(t: Table, pon: uint32, onu: uint32, port: uint32, ids: set<int32>, flow: uint64)
    requires Activated(t, pon, onu)
    ensures forall e: Entry :: Records(StoredAll(t, pon, onu, port, ids, flow), e) <==>
              Records(t, e) || (e.res in ids && e == Entry(pon, onu, port, e.res, flow))
    ensures forall p, o :: Activated(StoredAll(t, pon, onu, port, ids, flow), p, o) <==> Activated(t, p, o)
    ensures NoEmptyResource(t) ==> NoEmptyResource(StoredAll(t, pon, onu, port, ids, flow))
  {
  }

  // Validation refuses a flow exactly when storing it would put a resource below two ONUs.
  lemma ValidationIsExact(s: Allocator, f: Flow)
    requires Invariant(s)
    requires Activated(s.gems, PonOf(f), OnuOf(f))
    ensures Activated(s.allocs, PonOf(f), OnuOf(f))
    ensures ValidFlow(s, f) <==> forall k: Kind :: Exclusive(StoredFlow(TableOf(s, k), f, k))
  {
    forall k: Kind
      ensures !UsedElsewhere(TableOf(s, k), PonOf(f), OnuOf(f), ResourcesOf(f, k)) <==>
              Exclusive(StoredFlow(TableOf(s, k), f, k))
    {
      TableValidationIsExact(TableOf(s, k), PonOf(f), OnuOf(f), f.portNo, ResourcesOf(f, k), f.flowId);
    }
  }

  lemma TableValidationIsExact(t: Table, pon: uint32, onu: uint32, port: uint32, ids: set<int32>, flow: uint64)
    requires Activated(t, pon, onu)
    requires NoEmptyResource(t) && Exclusive(t)
    ensures !UsedElsewhere(t, pon, onu, ids) <==> Exclusive(StoredAll(t, pon, onu, port, ids, flow))
  {
    var t' := StoredAll(t, pon, onu, port, ids, flow);
    StoredAllEntries(t, pon, onu, port, ids, flow);
    if UsedElsewhere(t, pon, onu, ids) {
      var onu', port', res :| onu' != onu && res in ids && Lists(t, pon, onu', port', res);
      var flow' :| flow' in t[pon][onu'][port'][res];
      assert Records(t', Entry(pon, onu', port', res, flow')) && Records(t', Entry(pon, onu, port, res, flow));
    } else {
      forall e: Entry, e': Entry | Records(t', e) && Records(t', e') && e.pon == e'.pon && e.res == e'.res
        ensures e.onu == e'.onu
      {
        assert Records(t, e) ==> Lists(t, e.pon, e.onu, e.port, e.res);
        assert Records(t, e') ==> Lists(t, e'.pon, e'.onu, e'.port, e'.res);
      }
    }
  }

  lemma AcceptedKeepsInvariant(s: Allocator, f: Flow)
    requires Invariant(s) && FlowAddOutcome(s, f, true).Accepted?
    ensures Invariant(s.(gems := StoredFlow(s.gems, f, GemPort), allocs := StoredFlow(s.allocs, f, AllocId)))
  {
    var s' := s.(gems := StoredFlow(s.gems, f, GemPort), allocs := StoredFlow(s.allocs, f, AllocId));
    ValidationIsExact(s, f);
    forall k: Kind
      ensures WellFormed(TableOf(s', k), s.pons) && Exclusive(TableOf(s', k))
    {
      assert TableOf(s', k) == StoredFlow(TableOf(s, k), f, k);
      StoredAllEntries(TableOf(s, k), PonOf(f), OnuOf(f), f.portNo, ResourcesOf(f, k), f.flowId);
    }
    StoredAllEntries(s.gems, PonOf(f), OnuOf(f), f.portNo, ResourcesOf(f, GemPort), f.flowId);
    StoredAllEntries(s.allocs, PonOf(f), OnuOf(f), f.portNo, ResourcesOf(f, AllocId), f.flowId);
  }

  lemma RemovalKeepsInvariant(s: Allocator, id: uint64)
    requires Invariant(s)
    ensures Invariant(s.(gems := Freed(s.gems, id), allocs := Freed(s.allocs, id)))
  {
    var s' := s.(gems := Freed(s.gems, id), allocs := Freed(s.allocs, id));
    forall k: Kind
      ensures WellFormed(TableOf(s', k), s.pons) && Exclusive(TableOf(s', k))
    {
      var t := TableOf(s, k);
      FreedEntries(t, id);
      assert forall e :: Records(Freed(t, id), e) <==> e in Entries(Freed(t, id));
    }
    FreedEntries(s.gems, id);
    FreedEntries(s.allocs, id);
  }

  lemma ActivationKeepsInvariant(s: Allocator, pon: uint32, onu: uint32)
    requires Invariant(s) && pon in s.gems
    ensures Invariant(s.(gems := OnuReset(s.gems, pon, onu), allocs := OnuReset(s.allocs, pon, onu)))
  {
    var s' := s.(gems := OnuReset(s.gems, pon, onu), allocs := OnuReset(s.allocs, pon, onu));
    forall k: Kind
      ensures WellFormed(TableOf(s', k), s.pons) && Exclusive(TableOf(s', k))
    {
      var t := TableOf(s, k);
      OnuResetEntries(t, pon, onu);
      assert forall e :: Records(OnuReset(t, pon, onu), e) <==> e in Entries(OnuReset(t, pon, onu));
    }
    OnuResetEntries(s.gems, pon, onu);
    OnuResetEntries(s.allocs, pon, onu);
  }

  lemma StepKeepsInvariant(s: Allocator, c: Call)
    requires Invariant(s)
    ensures Invariant(Step(s, c))
  {
    if s.alive {
      match c
      case ActivateOnu(pon, onu) =>
        if pon in s.gems {
          ActivationKeepsInvariant(s, pon, onu);
        } else {
          KeepsTables(s, Step(s, c));
        }
      case FlowAdd(f, admitted) =>
        if FlowAddOutcome(s, f, admitted).Accepted? {
          AcceptedKeepsInvariant(s, f);
        } else {
          KeepsTables(s, Step(s, c));
        }
      case FlowRemove(id) => RemovalKeepsInvariant(s, id);
      case OltTransition(e) =>
        if NextOlt(s.olt, e).None? || e in {OltEnable, OltDisable} {
          KeepsTables(s, Step(s, c));
        } else {
          assert WellFormed(TableOf(s, GemPort), s.pons) && WellFormed(TableOf(s, AllocId), s.pons);
          assert s.gems + EmptyPons(s.pons) == EmptyPons(s.pons) == s.allocs + EmptyPons(s.pons);
          NoOnuInvariant(Step(s, c));
        }
    }
  }

  lemma NoOnuInvariant(s: Allocator)
    requires s.gems == s.allocs
    requires forall pon :: pon in s.gems ==> pon < s.pons && s.gems[pon] == map[]
    ensures Invariant(s)
  {
    forall k: Kind
      ensures WellFormed(TableOf(s, k), s.pons) && Exclusive(TableOf(s, k))
    {
      assert forall pon, onu :: !Activated(TableOf(s, k), pon, onu);
    }
  }

  lemma KeepsTables(s: Allocator, s': Allocator)
    requires Invariant(s)
    requires s'.gems == s.gems && s'.allocs == s.allocs && s'.pons == s.pons
    ensures Invariant(s')
  {
    assert forall k: Kind :: TableOf(s', k) == TableOf(s, k);
  }

  // In every state the device can reach, each GEM port and each alloc ID of a PON belongs to one ONU.
  lemma {:induction false} ResourcesAreExclusive(pons: uint32, calls: seq<Call>)
    ensures Invariant(Run(Boot(pons), calls))
    ensures forall k: Kind :: Exclusive(TableOf(Run(Boot(pons), calls), k))
  {
    if calls != [] {
      ResourcesAreExclusive(pons, calls[..|calls|-1]);
      StepKeepsInvariant(Run(Boot(pons), calls[..|calls|-1]), calls[|calls|-1]);
    }
  }

  // ----- ports of one ONU

  // Some other ONU or port of the PON lists one of the resources: what the comment above
  // validateFlow says it looks for.
  ghost predicate UsedByOtherPort(t: Table, pon: uint32, onu: uint32, port: uint32, ids: set<int32>) {
    exists onu', port', res :: (onu', port') != (onu, port) && res in ids && Lists(t, pon, onu', port', res)
  }

  // A valid flow meets the documented condition exactly when no other port of its own ONU
  // lists one of its resources; validation never looks there.
  lemma ValidationIgnoresOwnPorts(s: Allocator, f: Flow, k: Kind)
    requires ValidFlow(s, f)
    ensures var t, pon, onu, ids := TableOf(s, k), PonOf(f), OnuOf(f), ResourcesOf(f, k);
      UsedByOtherPort(t, pon, onu, f.portNo, ids) <==>
      exists port, res :: port != f.portNo && res in ids && Lists(t, pon, onu, port, res)
  {
    var t, pon, onu, ids := TableOf(s, k), PonOf(f), OnuOf(f), ResourcesOf(f, k);
    if UsedByOtherPort(t, pon, onu, f.portNo, ids) {
      var onu', port', res :| (onu', port') != (onu, f.portNo) && res in ids && Lists(t, pon, onu', port', res);
      assert !UsedElsewhere(t, pon, onu, ids);
    }
  }

  // After any accepted flow, the same flow on another port of its ONU and with another ID is
  // accepted too, so the documented condition does not hold of the code.
  lemma PortsCanShare(s: Allocator, f: Flow, port: uint32, id: uint64)
    requires s.alive && FlowAddOutcome(s, f, true).Accepted? && port != f.portNo
    ensures var s' := Step(s, Call.FlowAdd(f, true));
      && FlowAddOutcome(s', f.(portNo := port, flowId := id), true).Accepted?
      && UsedByOtherPort(s'.allocs, PonOf(f), OnuOf(f), port, {f.allocId})
  {
    var s' := Step(s, Call.FlowAdd(f, true));
    forall k: Kind
      ensures !UsedElsewhere(TableOf(s', k), PonOf(f), OnuOf(f), ResourcesOf(f, k))
    {
      assert !UsedElsewhere(TableOf(s, k), PonOf(f), OnuOf(f), ResourcesOf(f, k));
      StoredAllLists(TableOf(s, k), PonOf(f), OnuOf(f), f.portNo, ResourcesOf(f, k), f.flowId);
    }
    StoredAllLists(s.gems, PonOf(f), OnuOf(f), f.portNo, ResourcesOf(f, GemPort), f.flowId);
    StoredAllLists(s.allocs, PonOf(f), OnuOf(f), f.portNo, {f.allocId}, f.flowId);
    assert Lists(s'.allocs, PonOf(f), OnuOf(f), f.portNo, f.allocId);
  }

  lemma StoredAllLists(t: Table, pon: uint32, onu: uint32, port: uint32, ids: set<int32>, flow: uint64)
    requires Activated(t, pon, onu)
    ensures var t' := StoredAll(t, pon, onu, port, ids, flow);
      && Activated(t', pon, onu)
      && (forall o, p, r :: o != onu ==> (Lists(t', pon, o, p, r) <==> Lists(t, pon, o, p, r)))
      && (forall r :: r in ids ==> Lists(t', pon, onu, port, r))
  {
  }

  // ----- FlowAdd in terms of the fields of the flow

  // The unsigned reading of a signed field.
  predicate Reads(x: int32, y: uint32) {
    y as int == x as int % TWO_TO_THE_32
  }

  // The GEM port is one of the flow: a value of the p-bit map, read as signed, of a replicated flow,
  // and the GEM port field of any other.
  predicate CarriesGem(f: Flow, gem: int32) {
    if f.replicateFlow
    then exists pbit :: pbit in f.pbitToGemport && Reads(gem, f.pbitToGemport[pbit])
    else gem == f.gemportId
  }

  predicate Carries(f: Flow, k: Kind, res: int32) {
    if k == GemPort then CarriesGem(f, res) else res == f.allocId
  }

  lemma ReadsOnce(x: int32, y: uint32)
    ensures Reads(x, y) <==> x == ToInt32(y)
    ensures Reads(x, y) <==> ToUint32(x) == y
  {
  }

  lemma ResourcesAreCarried(f: Flow, k: Kind, res: int32)
    ensures res in ResourcesOf(f, k) <==> Carries(f, k, res)
  {
    if k == GemPort && f.replicateFlow {
      forall pbit | pbit in f.pbitToGemport
        ensures Reads(res, f.pbitToGemport[pbit]) <==> res == ToInt32(f.pbitToGemport[pbit])
      {
        ReadsOnce(res, f.pbitToGemport[pbit]);
      }
    }
  }

  // An accepted FlowAdd adds exactly the entries of the flow's own port, ID and resources, below the
  // PON and ONU its signed fields name: one per value of the p-bit map, or one.
  lemma FlowAddStores(s: Allocator, f: Flow, k: Kind, e: Entry)
    requires s.alive && FlowAddOutcome(s, f, true).Accepted?
    ensures Records(TableOf(Step(s, Call.FlowAdd(f, true)), k), e) <==>
            || Records(TableOf(s, k), e)
            || (&& Reads(f.accessIntfId, e.pon) && Reads(f.onuId, e.onu)
                && e.port == f.portNo && e.flow == f.flowId && Carries(f, k, e.res))
  {
    StoredAllEntries(TableOf(s, k), PonOf(f), OnuOf(f), f.portNo, ResourcesOf(f, k), f.flowId);
    ResourcesAreCarried(f, k, e.res);
    ReadsOnce(f.accessIntfId, e.pon);
    ReadsOnce(f.onuId, e.onu);
  }

  // Another ONU of the flow's PON lists one of its resources.
  ghost predicate TakenByOther(s: Allocator, f: Flow, k: Kind) {
    exists pon, onu, port, res ::
      Lists(TableOf(s, k), pon, onu, port, res) &&
      Reads(f.accessIntfId, pon) && !Reads(f.onuId, onu) && Carries(f, k, res)
  }

  lemma UsedElsewhereIs(s: Allocator, f: Flow, k: Kind)
    ensures UsedElsewhere(TableOf(s, k), PonOf(f), OnuOf(f), ResourcesOf(f, k)) <==> TakenByOther(s, f, k)
  {
    var t := TableOf(s, k);
    forall pon, onu, res
      ensures Reads(f.accessIntfId, pon) <==> pon == PonOf(f)
      ensures Reads(f.onuId, onu) <==> onu == OnuOf(f)
      ensures res in ResourcesOf(f, k) <==> Carries(f, k, res)
    {
      ReadsOnce(f.accessIntfId, pon);
      ReadsOnce(f.onuId, onu);
      ResourcesAreCarried(f, k, res);
    }
    if UsedElsewhere(t, PonOf(f), OnuOf(f), ResourcesOf(f, k)) {
      var onu, port, res :| onu != OnuOf(f) && res in ResourcesOf(f, k) && Lists(t, PonOf(f), onu, port, res);
      assert Carries(f, k, res) && !Reads(f.onuId, onu) && Reads(f.accessIntfId, PonOf(f));
    }
    if TakenByOther(s, f, k) {
      var pon, onu, port, res :| Lists(t, pon, onu, port, res) &&
        Reads(f.accessIntfId, pon) && !Reads(f.onuId, onu) && Carries(f, k, res);
      assert pon == PonOf(f) && onu != OnuOf(f) && res in ResourcesOf(f, k);
    }
  }

  // What becomes of a FlowAdd call, for every flow: flows of the OLT itself and multicast flows are
  // ignored; a flow for an ONU that is missing or down is refused, and so is one whose GEM port or
  // alloc ID another ONU of the PON lists; none of these changes anything. A flow of a PON that does
  // not exist, or otherwise fine for an ONU without maps, stops the device.
  lemma FlowAddOutcomes(s: Allocator, f: Flow, admitted: bool)
    requires s.alive
    ensures var known := exists pon :: pon < s.pons && Reads(f.accessIntfId, pon);
      var taken := TakenByOther(s, f, GemPort) || TakenByOther(s, f, AllocId);
      var own := f.accessIntfId != -1 && f.flowType != "multicast";
      var outcome, s' := FlowAddOutcome(s, f, admitted), Step(s, Call.FlowAdd(f, admitted));
      && (outcome == Ignored <==> !own)
      && (outcome == Refused <==> own && known && (!admitted || taken))
      && (outcome == Panicked <==> own && (!known || (admitted && !taken && !HasBothMaps(s, f))))
      && (outcome in {Ignored, Refused} ==> s' == s)
      && (outcome == Panicked ==> s' == s.(alive := false))
  {
    forall k: Kind
      ensures UsedElsewhere(TableOf(s, k), PonOf(f), OnuOf(f), ResourcesOf(f, k)) <==> TakenByOther(s, f, k)
    {
      UsedElsewhereIs(s, f, k);
    }
    ReadsOnce(f.accessIntfId, PonOf(f));
    forall pon: uint32
      ensures Reads(f.accessIntfId, pon) ==> pon == PonOf(f)
    {
      ReadsOnce(f.accessIntfId, pon);
    }
    MapsAreBoth(s, f);
  }

  ghost predicate HasBothMaps(s: Allocator, f: Flow) {
    exists pon, onu :: Reads(f.accessIntfId, pon) && Reads(f.onuId, onu) && Activated(s.gems, pon, onu) && Activated(s.allocs, pon, onu)
  }

  lemma MapsAreBoth(s: Allocator, f: Flow)
    ensures HasBothMaps(s, f) <==> Activated(s.gems, PonOf(f), OnuOf(f)) && Activated(s.allocs, PonOf(f), OnuOf(f))
  {
    ReadsOnce(f.accessIntfId, PonOf(f));
    ReadsOnce(f.onuId, OnuOf(f));
    if HasBothMaps(s, f) {
      var pon, onu :| Reads(f.accessIntfId, pon) && Reads(f.onuId, onu) && Activated(s.gems, pon, onu) && Activated(s.allocs, pon, onu);
      ReadsOnce(f.accessIntfId, pon);
      ReadsOnce(f.onuId, onu);
    }
  }

  // How the OLT gets into each of its states, and stays there.
  lemma OltStates(s: Allocator, e: OltEvent)
    requires s.alive
    ensures var olt := Step(s, OltTransition(e)).olt;
      && (olt == OltCreated <==> s.olt == OltCreated && e != OltInitialize)
      && (olt == OltInitialized <==>
            (e == OltInitialize && s.olt in {OltCreated, OltDeleted}) || (s.olt == OltInitialized && e != OltEnable))
      && (olt == OltEnabled <==>
            (e == OltEnable && s.olt in {OltInitialized, OltDisabled}) || (s.olt == OltEnabled && e !in {OltDisable, OltDelete}))
      && (olt == OltDisabled <==>
            (e == OltDisable && s.olt == OltEnabled) || (s.olt == OltDisabled && e !in {OltEnable, OltDelete}))
      && (olt == OltDeleted <==>
            (e == OltDelete && s.olt in {OltEnabled, OltDisabled}) || (s.olt == OltDeleted && e != OltInitialize))
  {
  }

  // ----- history

  // What the tables can say: an entry, or that an ONU has its maps.
  datatype Fact = Recorded(kind: Kind, entry: Entry) | HasMaps(pon: uint32, onu: uint32)

  predicate Holds(s: Allocator, x: Fact) {
    match x
    case Recorded(k, e) => Records(TableOf(s, k), e)
    case HasMaps(pon, onu) => Activated(s.gems, pon, onu)
  }

  // In state s the call makes the fact hold.
  ghost predicate Makes(s: Allocator, c: Call, x: Fact) {
    s.alive &&
    match x
    case Recorded(k, e) =>
      && c.FlowAdd?
      && FlowAddOutcome(s, c.flow, c.admitted).Accepted?
      && e.res in ResourcesOf(c.flow, k)
      && e == Entry(PonOf(c.flow), OnuOf(c.flow), c.flow.portNo, e.res, c.flow.flowId)
    case HasMaps(pon, onu) => c == Call.ActivateOnu(pon, onu) && pon in s.gems
  }

  // In state s the call ends it.
  ghost predicate Drops(s: Allocator, c: Call, x: Fact) {
    s.alive &&
    match c
    case ActivateOnu(pon, onu) => x.Recorded? && pon == x.entry.pon && onu == x.entry.onu
    case FlowAdd(_, _) => false
    case FlowRemove(id) => x.Recorded? && id == x.entry.flow
    case OltTransition(t) => t in {OltInitialize, OltDelete} && NextOlt(s.olt, t).Some?
  }

  lemma AcceptedFacts(s: Allocator, f: Flow, x: Fact)
    requires s.alive && FlowAddOutcome(s, f, true).Accepted?
    ensures var c := Call.FlowAdd(f, true);
      Holds(Step(s, c), x) <==> Makes(s, c, x) || Holds(s, x)
  {
    var k := if x.Recorded? then x.kind else GemPort;
    StoredAllEntries(TableOf(s, k), PonOf(f), OnuOf(f), f.portNo, ResourcesOf(f, k), f.flowId);
  }

  lemma StepFacts(s: Allocator, c: Call, x: Fact)
    requires Invariant(s)
    ensures Holds(Step(s, c), x) <==> Makes(s, c, x) || (Holds(s, x) && !Drops(s, c, x))
  {
    var k := if x.Recorded? then x.kind else GemPort;
    var t := TableOf(s, k);
    match c
    case ActivateOnu(pon, onu) =>
      if s.alive && pon in t {
        OnuResetEntries(t, pon, onu);
        assert x.Recorded? ==> (Records(OnuReset(t, pon, onu), x.entry) <==> x.entry in Entries(OnuReset(t, pon, onu)));
      }
    case FlowAdd(f, admitted) =>
      if s.alive && FlowAddOutcome(s, f, admitted).Accepted? {
        AcceptedFacts(s, f, x);
      }
    case FlowRemove(id) =>
      FreedEntries(t, id);
      assert x.Recorded? ==> (Records(Freed(t, id), x.entry) <==> x.entry in Entries(Freed(t, id)));
    case OltTransition(event) =>
      assert WellFormed(TableOf(s, k), s.pons);
  }

  // Adding a flow whose ID no entry carries, with all its resources, and removing it again restores
  // the entries of both tables.
  lemma AddThenRemove(s: Allocator, f: Flow, k: Kind)
    requires Invariant(s) && s.alive && FreshFlow(TableOf(s, k), f.flowId)
    ensures var s' := Step(Step(s, Call.FlowAdd(f, true)), Call.FlowRemove(f.flowId));
      FlowAddOutcome(s, f, true) != Panicked ==> Entries(TableOf(s', k)) == Entries(TableOf(s, k))
  {
    var s1 := Step(s, Call.FlowAdd(f, true));
    StepKeepsInvariant(s, Call.FlowAdd(f, true));
    forall e: Entry
      ensures Records(TableOf(Step(s1, Call.FlowRemove(f.flowId)), k), e) <==>
              (Makes(s, Call.FlowAdd(f, true), Recorded(k, e)) || Records(TableOf(s, k), e)) && (s1.alive ==> e.flow != f.flowId)
    {
      StepFacts(s, Call.FlowAdd(f, true), Recorded(k, e));
      StepFacts(s1, Call.FlowRemove(f.flowId), Recorded(k, e));
    }
  }

  ghost predicate MadeAt(s: Allocator, calls: seq<Call>, i: nat, x: Fact)
    requires i < |calls|
  {
    Makes(Run(s, calls[..i]), calls[i], x)
  }

  ghost predicate DroppedAt(s: Allocator, calls: seq<Call>, i: nat, x: Fact)
    requires i < |calls|
  {
    Drops(Run(s, calls[..i]), calls[i], x)
  }

  ghost predicate NotDroppedSince(s: Allocator, calls: seq<Call>, from: nat, x: Fact) {
    forall j :: from <= j < |calls| ==> !DroppedAt(s, calls, j, x)
  }

  // Some call of the run made it hold, and no later call ended it.
  ghost predicate MadeAndNotDropped(s: Allocator, calls: seq<Call>, x: Fact) {
    exists i :: 0 <= i < |calls| && MadeAt(s, calls, i, x) && NotDroppedSince(s, calls, i + 1, x)
  }

  // An entry is in a table exactly when an accepted FlowAdd stored it and, since then, its flow
  // was not removed, its ONU not activated again and the OLT neither deleted nor initialized. An ONU
  // has its maps exactly when it was activated and the OLT neither deleted nor initialized since.
  lemma {:induction false} TablesAreTheirHistory(pons: uint32, calls: seq<Call>, x: Fact)
    ensures Holds(Run(Boot(pons), calls), x) <==> MadeAndNotDropped(Boot(pons), calls, x)
  {
    var s0 := Boot(pons);
    if calls != [] {
      var n := |calls| - 1;
      TablesAreTheirHistory(pons, calls[..n], x);
      ResourcesAreExclusive(pons, calls[..n]);
      StepFacts(Run(s0, calls[..n]), calls[n], x);
      HistoryGrows(s0, calls, x);
    }
  }

  lemma SameEarlier(s: Allocator, calls: seq<Call>, x: Fact)
    requires calls != []
    ensures var n := |calls| - 1;
      forall i :: 0 <= i < n ==>
        && MadeAt(s, calls[..n], i, x) == MadeAt(s, calls, i, x)
        && DroppedAt(s, calls[..n], i, x) == DroppedAt(s, calls, i, x)
  {
    var n := |calls| - 1;
    assert forall i :: 0 <= i < n ==> calls[..n][..i] == calls[..i] && calls[..n][i] == calls[i];
  }

  lemma HistoryGrows(s: Allocator, calls: seq<Call>, x: Fact)
    requires calls != []
    ensures var n := |calls| - 1;
      MadeAndNotDropped(s, calls, x) <==>
      MadeAt(s, calls, n, x) || (MadeAndNotDropped(s, calls[..n], x) && !DroppedAt(s, calls, n, x))
  {
    var n := |calls| - 1;
    SameEarlier(s, calls, x);
    assert NotDroppedSince(s, calls, n + 1, x);
    forall from: nat | from <= n
      ensures NotDroppedSince(s, calls, from, x) <==>
              NotDroppedSince(s, calls[..n], from, x) && !DroppedAt(s, calls, n, x)
    {
    }
  }

  // In every run an admitted flow of an existing PON makes FlowAdd panic exactly when it is valid and
  // the ONU ID it names was not activated on that PON since the OLT was last deleted or initialized.
  lemma PanicIsExact(pons: uint32, calls: seq<Call>, f: Flow)
    requires IsOnuFlow(f) && PonOf(f) < pons
    ensures var s := Run(Boot(pons), calls);
      FlowAddOutcome(s, f, true) == Panicked <==>
      ValidFlow(s, f) && !MadeAndNotDropped(Boot(pons), calls, HasMaps(PonOf(f), OnuOf(f)))
  {
    TablesAreTheirHistory(pons, calls, HasMaps(PonOf(f), OnuOf(f)));
    ResourcesAreExclusive(pons, calls);
    SamePons(pons, calls);
  }

  lemma {:induction false} SamePons(pons: uint32, calls: seq<Call>)
    ensures Run(Boot(pons), calls).pons == pons
  {
    if calls != [] {
      SamePons(pons, calls[..|calls|-1]);
    }
  }

  // ----- the device

  class OltDevice {
    const pons: uint32
    const gems: ResourceTable
    const allocs: ResourceTable
    var olt: OltState
    var alive: bool

    ghost predicate Valid() {
      gems != allocs
    }

    ghost function View(): Allocator
      reads this, gems, allocs
    {
      Allocator(pons, gems.ids, allocs.ids, olt, alive)
    }

    constructor (pons: uint32)
      ensures Valid() && View() == Boot(pons) && fresh(gems) && fresh(allocs)
    {
      this.pons := pons;
      gems := new ResourceTable(pons);
      allocs := new ResourceTable(pons);
      olt := OltInitialized;
      alive := true;
    }

    method ActivateOnu(pon: uint32, onu: uint32)
      requires Valid() && alive
      modifies this, gems, allocs
      ensures View() == Step(old(View()), Call.ActivateOnu(pon, onu))
    {
      if pon !in gems.ids || pon !in allocs.ids {
        alive := false;
        return;
      }
      allocs.ids := OnuReset(allocs.ids, pon, onu);
      gems.ids := OnuReset(gems.ids, pon, onu);
    }

    method ValidateFlow(f: Flow) returns (ok: bool)
      ensures ok <==> ValidFlow(View(), f)
      ensures ok <==> !TakenByOther(View(), f, GemPort) && !TakenByOther(View(), f, AllocId)
    {
      UsedElsewhereIs(View(), f, GemPort);
      UsedElsewhereIs(View(), f, AllocId);
      var used := gems.IsUsedElsewhere(PonOf(f), OnuOf(f), ResourcesOf(f, GemPort));
      assert used <==> UsedElsewhere(TableOf(View(), GemPort), PonOf(f), OnuOf(f), ResourcesOf(f, GemPort));
      if used {
        return false;
      }
      used := allocs.IsUsedElsewhere(PonOf(f), OnuOf(f), ResourcesOf(f, AllocId));
      assert used <==> UsedElsewhere(TableOf(View(), AllocId), PonOf(f), OnuOf(f), ResourcesOf(f, AllocId));
      return !used;
    }

    method StoreGemPortIdByFlow(f: Flow)
      requires Valid()
      requires Activated(gems.ids, PonOf(f), OnuOf(f))
      modifies gems
      ensures gems.ids == StoredFlow(old(gems.ids), f, GemPort)
      ensures forall e: Entry :: Records(gems.ids, e) <==>
        || old(Records(gems.ids, e))
        || (&& Reads(f.accessIntfId, e.pon) && Reads(f.onuId, e.onu)
            && e.port == f.portNo && e.flow == f.flowId && CarriesGem(f, e.res))
    {
      StoredFlowEntries(gems.ids, f, GemPort);
      if f.replicateFlow {
        var todo := f.pbitToGemport.Keys;
        ghost var ids := {};
        while todo != {}
          invariant todo <= f.pbitToGemport.Keys
          invariant ids == set pbit | pbit in f.pbitToGemport.Keys - todo :: ToInt32(f.pbitToGemport[pbit])
          invariant Activated(gems.ids, PonOf(f), OnuOf(f))
          invariant gems.ids == StoredAll(old(gems.ids), PonOf(f), OnuOf(f), f.portNo, ids, f.flowId)
        {
          var pbit :| pbit in todo;
          var gem := ToInt32(f.pbitToGemport[pbit]);
          StoredOneMore(old(gems.ids), Entry(PonOf(f), OnuOf(f), f.portNo, gem, f.flowId), ids);
          gems.Store(Entry(PonOf(f), OnuOf(f), f.portNo, gem, f.flowId));
          todo := todo - {pbit};
          ids := ids + {gem};
        }
        assert f.pbitToGemport.Keys - {} == f.pbitToGemport.Keys;
      } else {
        StoredOneMore(gems.ids, Entry(PonOf(f), OnuOf(f), f.portNo, f.gemportId, f.flowId), {});
        assert {} + {f.gemportId} == ResourcesOf(f, GemPort);
        gems.Store(Entry(PonOf(f), OnuOf(f), f.portNo, f.gemportId, f.flowId));
      }
    }

    method StoreAllocId(f: Flow)
      requires Valid()
      requires Activated(allocs.ids, PonOf(f), OnuOf(f))
      modifies allocs
      ensures allocs.ids == StoredFlow(old(allocs.ids), f, AllocId)
    {
      StoredOneMore(allocs.ids, Entry(PonOf(f), OnuOf(f), f.portNo, f.allocId, f.flowId), {});
      assert {} + {f.allocId} == ResourcesOf(f, AllocId);
      allocs.Store(Entry(PonOf(f), OnuOf(f), f.portNo, f.allocId, f.flowId));
    }

    method FlowAdd(f: Flow, admitted: bool) returns (outcome: Outcome)
      requires Valid() && alive
      modifies this, gems, allocs
      ensures outcome == FlowAddOutcome(old(View()), f, admitted)
      ensures View() == Step(old(View()), Call.FlowAdd(f, admitted))
    {
      if f.accessIntfId == -1 || f.flowType == MULTICAST {
        return Ignored;
      }
      if PonOf(f) >= pons {
        alive := false;
        return Panicked;
      }
      if !admitted {
        return Refused;
      }
      var ok := ValidateFlow(f);
      if !ok {
        return Refused;
      }
      if PonOf(f) !in gems.ids || OnuOf(f) !in gems.ids[PonOf(f)] ||
         PonOf(f) !in allocs.ids || OnuOf(f) !in allocs.ids[PonOf(f)] {
        alive := false;
        return Panicked;
      }
      StoreGemPortIdByFlow(f);
      StoreAllocId(f);
      return Outcome.Accepted;
    }

    method FlowRemove(id: uint64)
      requires Valid() && alive
      modifies gems, allocs
      ensures View() == Step(old(View()), Call.FlowRemove(id))
    {
      gems.Free(id);
      allocs.Free(id);
    }

    method Transition(e: OltEvent)
      requires Valid() && alive
      modifies this, gems, allocs
      ensures View() == Step(old(View()), OltTransition(e))
    {
      var next := NextOlt(olt, e);
      if next.Some? {
        olt := next.value;
        if e == OltInitialize {
          allocs.ids := allocs.ids + EmptyPons(pons);
          gems.ids := gems.ids + EmptyPons(pons);
        } else if e == OltDelete {
          gems.ids := map[];
          allocs.ids := map[];
        }
      }
    }
  }

  lemma StoredFlowEntries(t: Table, f: Flow, k: Kind)
    requires Activated(t, PonOf(f), OnuOf(f))
    ensures forall e: Entry :: Records(StoredFlow(t, f, k), e) <==>
      || Records(t, e)
      || (&& Reads(f.accessIntfId, e.pon) && Reads(f.onuId, e.onu)
          && e.port == f.portNo && e.flow == f.flowId && Carries(f, k, e.res))
  {
    StoredAllEntries(t, PonOf(f), OnuOf(f), f.portNo, ResourcesOf(f, k), f.flowId);
    forall e: Entry
      ensures Records(StoredFlow(t, f, k), e) <==>
        || Records(t, e)
        || (&& Reads(f.accessIntfId, e.pon) && Reads(f.onuId, e.onu)
            && e.port == f.portNo && e.flow == f.flowId && Carries(f, k, e.res))
    {
      ResourcesAreCarried(f, k, e.res);
      ReadsOnce(f.accessIntfId, e.pon);
      ReadsOnce(f.onuId, e.onu);
    }
  }

  lemma StoredOneMore(t: Table, e: Entry, ids: set<int32>)
    requires Activated(t, e.pon, e.onu)
    ensures Activated(StoredAll(t, e.pon, e.onu, e.port, ids, e.flow), e.pon, e.onu)
    ensures Stored(StoredAll(t, e.pon, e.onu, e.port, ids, e.flow), e) ==
            StoredAll(t, e.pon, e.onu, e.port, ids + {e.res}, e.flow)
  {
    var m := PortAt(t, e.pon, e.onu, e.port);
    var m', m'' := WithFlows(m, ids, e.flow), WithFlows(m, ids + {e.res}, e.flow);
    assert forall flows: set<uint64> :: flows + {} == flows;
    forall r | r in m''
      ensures r in WithFlow(m', e.res, e.flow) && WithFlow(m', e.res, e.flow)[r] == m''[r]
    {
    }
    assert WithFlow(m', e.res, e.flow) == m'';
    if ids == {} {
      assert m' == m;
    } else {
      PortWrites(t, e.pon, e.onu, e.port, m', m'');
    }
  }
}
