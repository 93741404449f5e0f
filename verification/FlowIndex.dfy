/** The flow map of the OLT and the flow keys kept by each ONU, with performance mode off.

    FlowAdd stores the flow before it checks anything, so a refused flow stays in the map. The per-ONU
    listing looks every key of the ONU up in the map and panics on a key that is missing. */
module FlowIndex {
  import opened MachineIntegers
  import opened Options
  import opened StateMachines
  import opened FlowLists
  import opened OpenoltFlows

  datatype Onu = Onu(pon: uint32, id: uint32, flows: seq<uint64>)

  // All ONUs, PON after PON, and the flow map.
  datatype Index = Index(pons: uint32, onus: seq<Onu>, flows: map<uint64, Flow>, alive: bool)

  datatype Event =
    | Add(flow: Flow, disabled: bool) // disabled: the ONU of the flow, or its PON, is down
    | Remove(flowId: uint64)
    | Cleanup(onu: nat)
    | SetId(onu: nat, id: uint32)

  // GetPonById and GetOnuById: the first ONU of the PON with that ID.
  function FindFrom(onus: seq<Onu>, pon: uint32, id: uint32, from: nat): Option<nat>
    requires from <= |onus|
    decreases |onus| - from
  {
    if from == |onus| then None
    else if onus[from].pon == pon && onus[from].id == id then Some(from)
    else FindFrom(onus, pon, id, from + 1)
  }

  function Find(onus: seq<Onu>, f: Flow): Option<nat> {
    FindFrom(onus, PonOf(f), OnuOf(f), 0)
  }

  function WithFlows(s: Index, k: nat, flows: seq<uint64>): Index
    requires k < |s.onus|
  {
    s.(onus := s.onus[k := s.onus[k].(flows := flows)])
  }

  function Step(s: Index, e: Event): (s': Index)
    ensures |s'.onus| == |s.onus|
  {
    if !s.alive then s
    else match e
      case Add(f, disabled) =>
        var s1 := s.(flows := s.flows[f.flowId := f]);
        if !IsOnuFlow(f) then s1
        else if PonOf(f) >= s.pons then s1.(alive := false)
        else
          var k := Find(s.onus, f);
          if k.None? || disabled || k.value >= |s.onus| then s1
          else WithFlows(s1, k.value, s.onus[k.value].flows + [f.flowId])
      case Remove(id) =>
        if id !in s.flows then s
        else if s.flows[id].accessIntfId == -1 then s.(flows := s.flows - {id})
        else if PonOf(s.flows[id]) >= s.pons then s // the flow is not deleted
        else
          var k := Find(s.onus, s.flows[id]);
          if k.None? || k.value >= |s.onus| then s // the flow is not deleted
          else WithFlows(s, k.value, Without(s.onus[k.value].flows, id)).(flows := s.flows - {id})
      case Cleanup(k) => if k < |s.onus| then WithFlows(s, k, []) else s
      case SetId(k, id) => if k < |s.onus| then s.(onus := s.onus[k := s.onus[k].(id := id)]) else s
  }

  function Run(s: Index, events: seq<Event>): (s': Index)
    ensures |s'.onus| == |s.onus|
  {
    if events == [] then s else Step(Run(s, events[..|events|-1]), events[|events|-1])
  }

  // ----- what the listing needs

  // Every key of the ONU is in the map, once.
  ghost predicate Listable(s: Index, k: nat)
    requires k < |s.onus|
  {
    NoDuplicates(s.onus[k].flows) && forall id :: id in s.onus[k].flows ==> id in s.flows
  }

  ghost predicate AllListable(s: Index) {
    forall k :: 0 <= k < |s.onus| ==> Listable(s, k)
  }

  // Every ONU can be listed, now and after the removal of any one flow.
  ghost predicate Lasting(s: Index) {
    AllListable(s) && forall id :: AllListable(Step(s, Remove(id)))
  }

  // With this flow behind it, a key of ONU k does not outlive its flow: removing the flow takes the
  // key of this ONU too, or does nothing at all.
  predicate Harmless(s: Index, f: Flow, k: nat) {
    f.accessIntfId != -1 && (PonOf(f) >= s.pons || Find(s.onus, f) in {None, Some(k)})
  }

  ghost predicate Holds(s: Index, k: nat, id: uint64) {
    k < |s.onus| && id in s.onus[k].flows
  }

  ghost predicate Agrees(s: Index) {
    && (forall k :: 0 <= k < |s.onus| ==> NoDuplicates(s.onus[k].flows))
    && (forall k: nat, id :: Holds(s, k, id) ==> id in s.flows && Harmless(s, s.flows[id], k))
  }

  // The flow is looked up on a PON that does not exist, which panics.
  predicate Panics(s: Index, f: Flow) {
    IsOnuFlow(f) && PonOf(f) >= s.pons
  }

  // The flow ID becomes a key of the ONU it is for.
  predicate Appends(s: Index, f: Flow, disabled: bool) {
    IsOnuFlow(f) && PonOf(f) < s.pons && Find(s.onus, f).Some? && !disabled
  }

  // A flow ID that some ONU has is not added again, unless that does no harm: the new flow does not
  // become a key once more, and removing it takes the key along or does nothing.
  ghost predicate ProperAdd(s: Index, f: Flow, disabled: bool) {
    Panics(s, f) || forall k: nat :: Holds(s, k, f.flowId) ==>
      Harmless(s, f, k) && !(Appends(s, f, disabled) && Find(s.onus, f) == Some(k))
  }

  predicate Matches(o: Onu, f: Flow) {
    o.pon == PonOf(f) && o.id == OnuOf(f)
  }

  // With ONU k renumbered, the flow behind a key of ONU j does not lead to another ONU: j itself may
  // only leave if nobody else has its old ID, and nobody may take an ID that leads past j.
  ghost predicate ProperIdFor(s: Index, k: nat, id: uint32, f: Flow, j: nat)
    requires k < |s.onus| && j < |s.onus|
  {
    if k == j then
      Find(s.onus, f) == Some(j) && id != OnuOf(f) ==> forall m :: 0 <= m < |s.onus| && m != j ==> !Matches(s.onus[m], f)
    else
      !(s.onus[k].pon == PonOf(f) && id == OnuOf(f) && (k < j || Find(s.onus, f) == None))
  }

  ghost predicate ProperId(s: Index, k: nat, id: uint32)
    requires k < |s.onus|
  {
    forall j: nat, i :: Holds(s, j, i) && i in s.flows && PonOf(s.flows[i]) < s.pons ==> ProperIdFor(s, k, id, s.flows[i], j)
  }

  lemma {:induction false} FindFromFirst(onus: seq<Onu>, pon: uint32, id: uint32, from: nat)
    requires from <= |onus|
    ensures var r := FindFrom(onus, pon, id, from);
      && (r.Some? ==> from <= r.value < |onus| && onus[r.value].pon == pon && onus[r.value].id == id)
      && (r.Some? ==> forall j :: from <= j < r.value ==> !(onus[j].pon == pon && onus[j].id == id))
      && (r.None? ==> forall j :: from <= j < |onus| ==> !(onus[j].pon == pon && onus[j].id == id))
    decreases |onus| - from
  {
    if from < |onus| {
      FindFromFirst(onus, pon, id, from + 1);
    }
  }

  // The lookup finds ONU k exactly when k is the first match.
  lemma FindIs(onus: seq<Onu>, f: Flow, k: nat)
    ensures Find(onus, f) == Some(k) <==>
            && k < |onus| && onus[k].pon == PonOf(f) && onus[k].id == OnuOf(f)
            && (forall j :: 0 <= j < k ==> !(onus[j].pon == PonOf(f) && onus[j].id == OnuOf(f)))
  {
    FindFromFirst(onus, PonOf(f), OnuOf(f), 0);
  }

  // The lookup does not depend on the flow keys.
  lemma FindIgnoresFlows(onus: seq<Onu>, onus': seq<Onu>, f: Flow)
    requires |onus| == |onus'|
    requires forall k :: 0 <= k < |onus| ==> onus[k].pon == onus'[k].pon && onus[k].id == onus'[k].id
    ensures Find(onus, f) == Find(onus', f)
  {
    FindFromFirst(onus, PonOf(f), OnuOf(f), 0);
    FindFromFirst(onus', PonOf(f), OnuOf(f), 0);
  }

  lemma HarmlessIgnoresFlows(s: Index, s': Index, f: Flow, k: nat)
    requires s'.pons == s.pons && |s'.onus| == |s.onus|
    requires forall j :: 0 <= j < |s.onus| ==> s.onus[j].pon == s'.onus[j].pon && s.onus[j].id == s'.onus[j].id
    ensures Harmless(s', f, k) == Harmless(s, f, k)
  {
    FindIgnoresFlows(s.onus, s'.onus, f);
  }

  // ----- the property in terms of keys and flows

  lemma RemoveAgrees(s: Index, id: uint64)
    requires Agrees(s)
    ensures Agrees(Step(s, Remove(id)))
  {
    var s' := Step(s, Remove(id));
    if s' != s {
      forall k: nat, i | Holds(s', k, i)
        ensures Holds(s, k, i) && i in s'.flows && s'.flows[i] == s.flows[i]
        ensures Harmless(s', s'.flows[i], k)
      {
        RemovedKeys(s, id, k);
        assert Holds(s, k, i);
        HarmlessIgnoresFlows(s, s', s.flows[i], k);
      }
      forall k | 0 <= k < |s'.onus|
        ensures NoDuplicates(s'.onus[k].flows)
      {
        RemovedKeys(s, id, k);
      }
    }
  }

  // What a removal that changes anything leaves of the keys of ONU k: all but this one.
  lemma RemovedKeys(s: Index, id: uint64, k: nat)
    requires Agrees(s) && k < |s.onus| && Step(s, Remove(id)) != s
    ensures var s' := Step(s, Remove(id));
      && s'.flows == s.flows - {id} && id in s.flows
      && NoDuplicates(s'.onus[k].flows)
      && (forall i :: i in s'.onus[k].flows <==> i in s.onus[k].flows && i != id)
      && (forall j :: 0 <= j < |s.onus| ==> s'.onus[j].pon == s.onus[j].pon && s'.onus[j].id == s.onus[j].id)
  {
    FindFromFirst(s.onus, PonOf(s.flows[id]), OnuOf(s.flows[id]), 0);
    WithoutUnique(s.onus[k].flows, id);
    assert Holds(s, k, id) ==> Harmless(s, s.flows[id], k);
  }

  // Every ONU can be listed now and after any removal exactly when no key outlives its flow.
  lemma LastingIs(s: Index)
    requires s.alive
    ensures Lasting(s) <==> Agrees(s)
  {
    if Agrees(s) {
      forall id: uint64
        ensures AllListable(Step(s, Remove(id)))
      {
        RemoveAgrees(s, id);
        AgreesLists(Step(s, Remove(id)));
      }
      AgreesLists(s);
    }
    if Lasting(s) {
      forall k: nat, id | Holds(s, k, id)
        ensures id in s.flows && Harmless(s, s.flows[id], k)
      {
        assert Listable(s, k);
        OutlivingKey(s, k, id);
      }
      forall k | 0 <= k < |s.onus|
        ensures NoDuplicates(s.onus[k].flows)
      {
        assert Listable(s, k);
      }
    }
  }

  lemma AgreesLists(s: Index)
    requires Agrees(s)
    ensures AllListable(s)
  {
    forall k | 0 <= k < |s.onus|
      ensures Listable(s, k)
    {
      assert forall id :: id in s.onus[k].flows ==> Holds(s, k, id);
    }
  }

  lemma OutlivingKey(s: Index, k: nat, id: uint64)
    requires s.alive && Holds(s, k, id) && id in s.flows && AllListable(Step(s, Remove(id)))
    ensures Harmless(s, s.flows[id], k)
  {
    var s' := Step(s, Remove(id));
    FindFromFirst(s.onus, PonOf(s.flows[id]), OnuOf(s.flows[id]), 0);
    assert Listable(s', k);
    assert id in s'.onus[k].flows ==> id in s'.flows;
  }

  // ----- what each event does to it

  lemma AddAgrees(s: Index, f: Flow, disabled: bool)
    requires Agrees(s) && s.alive && !Panics(s, f)
    ensures Agrees(Step(s, Add(f, disabled))) <==> ProperAdd(s, f, disabled)
  {
    var s', id := Step(s, Add(f, disabled)), f.flowId;
    FindFromFirst(s.onus, PonOf(f), OnuOf(f), 0);
    AddedKeys(s, f, disabled);
    if ProperAdd(s, f, disabled) {
      ProperAddAgrees(s, f, disabled);
    } else {
      var k: nat :| Holds(s, k, id) && !(Harmless(s, f, k) && !(Appends(s, f, disabled) && Find(s.onus, f) == Some(k)));
      if Harmless(s, f, k) {
        var i :| 0 <= i < |s.onus[k].flows| && s.onus[k].flows[i] == id;
        assert s'.onus[k].flows[i] == s'.onus[k].flows[|s.onus[k].flows|];
      } else {
        HarmlessIgnoresFlows(s, s', f, k);
        assert Holds(s', k, id);
      }
    }
  }

  lemma AddedKeys(s: Index, f: Flow, disabled: bool)
    requires s.alive && !Panics(s, f)
    ensures var s' := Step(s, Add(f, disabled));
      && s'.alive && s'.pons == s.pons && s'.flows == s.flows[f.flowId := f]
      && (forall j :: 0 <= j < |s.onus| ==>
            && s'.onus[j].pon == s.onus[j].pon && s'.onus[j].id == s.onus[j].id
            && s'.onus[j].flows == s.onus[j].flows +
               (if Appends(s, f, disabled) && Find(s.onus, f) == Some(j) then [f.flowId] else []))
  {
    FindFromFirst(s.onus, PonOf(f), OnuOf(f), 0);
    assert forall flows: seq<uint64> :: flows + [] == flows;
  }

  lemma ProperAddAgrees(s: Index, f: Flow, disabled: bool)
    requires Agrees(s) && s.alive && !Panics(s, f) && ProperAdd(s, f, disabled)
    ensures Agrees(Step(s, Add(f, disabled)))
  {
    var s', id := Step(s, Add(f, disabled)), f.flowId;
    AddedKeys(s, f, disabled);
    forall k: nat, i | Holds(s', k, i)
      ensures i in s'.flows && Harmless(s', s'.flows[i], k)
    {
      assert Holds(s, k, i) || (i == id && Appends(s, f, disabled) && Find(s.onus, f) == Some(k));
      HarmlessIgnoresFlows(s, s', s'.flows[i], k);
    }
    forall k | 0 <= k < |s.onus|
      ensures NoDuplicates(s'.onus[k].flows)
    {
      assert NoDuplicates(s.onus[k].flows);
      assert Appends(s, f, disabled) && Find(s.onus, f) == Some(k) ==> !Holds(s, k, id);
    }
  }

  lemma CleanupAgrees(s: Index, k: nat)
    requires Agrees(s) && k < |s.onus|
    ensures Agrees(Step(s, Cleanup(k)))
  {
    var s' := Step(s, Cleanup(k));
    forall j: nat, i | Holds(s', j, i)
      ensures i in s'.flows && Harmless(s', s'.flows[i], j)
    {
      assert Holds(s, j, i);
      HarmlessIgnoresFlows(s, s', s.flows[i], j);
    }
  }

  // Renumbering ONU k and the flow behind a key of ONU j.
  lemma IdChange(s: Index, k: nat, id: uint32, f: Flow, j: nat)
    requires k < |s.onus| && j < |s.onus| && Harmless(s, f, j) && PonOf(f) < s.pons
    ensures Find(s.onus[k := s.onus[k].(id := id)], f) in {None, Some(j)} <==> ProperIdFor(s, k, id, f, j)
  {
    var onus' := s.onus[k := s.onus[k].(id := id)];
    FindFromFirst(s.onus, PonOf(f), OnuOf(f), 0);
    FindFromFirst(onus', PonOf(f), OnuOf(f), 0);
    assert forall m :: 0 <= m < |s.onus| && m != k ==> Matches(onus'[m], f) == Matches(s.onus[m], f);
    assert Matches(onus'[k], f) <==> s.onus[k].pon == PonOf(f) && id == OnuOf(f);
  }

  lemma IdAgrees(s: Index, k: nat, id: uint32)
    requires Agrees(s) && s.alive && k < |s.onus|
    ensures Agrees(Step(s, SetId(k, id))) <==> ProperId(s, k, id)
  {
    var s' := Step(s, SetId(k, id));
    forall j: nat, i | Holds(s, j, i)
      ensures i in s.flows
      ensures Harmless(s', s.flows[i], j) <==> (PonOf(s.flows[i]) < s.pons ==> ProperIdFor(s, k, id, s.flows[i], j))
    {
      if PonOf(s.flows[i]) < s.pons {
        IdChange(s, k, id, s.flows[i], j);
      }
    }
    assert forall j: nat, i :: Holds(s', j, i) <==> Holds(s, j, i);
  }

  // Adding a flow keeps every ONU listable, now and after any removal, exactly when it is proper.
  lemma AddIsProper(s: Index, f: Flow, disabled: bool)
    requires Lasting(s) && s.alive
    ensures Lasting(Step(s, Add(f, disabled))) <==> ProperAdd(s, f, disabled)
  {
    LastingIs(s);
    if Panics(s, f) {
      var s' := Step(s, Add(f, disabled));
      forall k | 0 <= k < |s.onus|
        ensures Listable(s', k)
      {
        assert Listable(s, k) && s'.onus[k] == s.onus[k];
      }
    } else {
      AddAgrees(s, f, disabled);
      AddedKeys(s, f, disabled);
      LastingIs(Step(s, Add(f, disabled)));
    }
  }

  // So does giving an ONU an ID.
  lemma IdIsProper(s: Index, k: nat, id: uint32)
    requires Lasting(s) && s.alive && k < |s.onus|
    ensures Lasting(Step(s, SetId(k, id))) <==> ProperId(s, k, id)
  {
    LastingIs(s);
    IdAgrees(s, k, id);
    LastingIs(Step(s, SetId(k, id)));
  }

  // A key without a flow: the listing of its ONU panics.
  ghost predicate Dangling(s: Index) {
    exists k: nat, id :: Holds(s, k, id) && id !in s.flows
  }

  lemma {:induction false} StillThere(flows: seq<uint64>, id: uint64)
    requires id in flows
    ensures id in Without(flows + [id], id)
  {
    if flows[0] == id {
      assert (flows + [id])[1..] == flows[1..] + [id];
    } else {
      StillThere(flows[1..], id);
      assert (flows + [id])[1..] == flows[1..] + [id];
    }
  }

  // After an improper add, removing that flow makes some listing panic.
  lemma ImproperAddBreaks(s: Index, f: Flow, disabled: bool)
    requires s.alive && !ProperAdd(s, f, disabled)
    ensures Dangling(Step(Step(s, Add(f, disabled)), Remove(f.flowId)))
  {
    var s1, id := Step(s, Add(f, disabled)), f.flowId;
    var s2 := Step(s1, Remove(id));
    AddedKeys(s, f, disabled);
    FindFromFirst(s.onus, PonOf(f), OnuOf(f), 0);
    FindIgnoresFlows(s.onus, s1.onus, f);
    var k: nat :| Holds(s, k, id) && !(Harmless(s, f, k) && !(Appends(s, f, disabled) && Find(s.onus, f) == Some(k)));
    if Harmless(s, f, k) {
      StillThere(s.onus[k].flows, id);
    }
    assert Holds(s2, k, id) && id !in s2.flows;
  }

  // After an improper renumbering, removing one of the flows it misleads does.
  lemma ImproperIdBreaks(s: Index, k: nat, id: uint32)
    requires Lasting(s) && s.alive && k < |s.onus| && !ProperId(s, k, id)
    ensures exists i :: Dangling(Step(Step(s, SetId(k, id)), Remove(i)))
  {
    LastingIs(s);
    var j: nat, i :| Holds(s, j, i) && i in s.flows && PonOf(s.flows[i]) < s.pons && !ProperIdFor(s, k, id, s.flows[i], j);
    IdChange(s, k, id, s.flows[i], j);
    var s1 := Step(s, SetId(k, id));
    var s2 := Step(s1, Remove(i));
    FindFromFirst(s1.onus, PonOf(s.flows[i]), OnuOf(s.flows[i]), 0);
    assert Holds(s2, j, i) && i !in s2.flows;
  }

  // Removing a flow and disabling an ONU always do.
  lemma RemoveLasts(s: Index, id: uint64)
    requires Lasting(s) && s.alive
    ensures Lasting(Step(s, Remove(id)))
  {
    LastingIs(s);
    RemoveAgrees(s, id);
    LastingIs(Step(s, Remove(id)));
  }

  lemma CleanupLasts(s: Index, k: nat)
    requires Lasting(s) && s.alive && k < |s.onus|
    ensures Lasting(Step(s, Cleanup(k)))
  {
    LastingIs(s);
    CleanupAgrees(s, k);
    LastingIs(Step(s, Cleanup(k)));
  }

  // Disabling an ONU leaves it without keys and changes nothing else; the flows stay in the map.
  lemma CleanupClears(s: Index, k: nat, j: nat)
    requires s.alive && k < |s.onus| && j < |s.onus|
    ensures var s' := Step(s, Cleanup(k));
      && s'.flows == s.flows && s'.alive && s'.pons == s.pons && |s'.onus| == |s.onus|
      && s'.onus[j].pon == s.onus[j].pon && s'.onus[j].id == s.onus[j].id
      && s'.onus[j].flows == if j == k then [] else s.onus[j].flows
  {
  }

  ghost predicate ProperEvent(s: Index, e: Event) {
    s.alive ==>
    match e
    case Add(f, disabled) => ProperAdd(s, f, disabled)
    case SetId(k, id) => k < |s.onus| ==> ProperId(s, k, id)
    case _ => true
  }

  lemma StepLasts(s: Index, e: Event)
    requires Lasting(s)
    ensures Lasting(Step(s, e)) <==> ProperEvent(s, e)
  {
    if s.alive {
      match e
      case Add(f, disabled) => AddIsProper(s, f, disabled);
      case Remove(id) => RemoveLasts(s, id);
      case Cleanup(k) =>
        if k < |s.onus| {
          CleanupLasts(s, k);
        }
      case SetId(k, id) =>
        if k < |s.onus| {
          IdIsProper(s, k, id);
        }
    }
  }

  ghost predicate ProperAt(s: Index, events: seq<Event>, i: nat)
    requires i < |events|
  {
    ProperEvent(Run(s, events[..i]), events[i])
  }

  ghost predicate LastingAt(s: Index, events: seq<Event>, i: nat)
    requires i <= |events|
  {
    Lasting(Run(s, events[..i]))
  }

  lemma SameEarlier(s: Index, events: seq<Event>)
    requires events != []
    ensures var before := events[..|events|-1];
      && (forall i :: 0 <= i <= |before| ==> LastingAt(s, before, i) == LastingAt(s, events, i))
      && (forall i :: 0 <= i < |before| ==> ProperAt(s, before, i) == ProperAt(s, events, i))
  {
    var before := events[..|events|-1];
    assert forall i :: 0 <= i <= |before| ==> before[..i] == events[..i] && (i < |before| ==> before[i] == events[i]);
  }

  // All ONUs can be listed at every point of a run, and after any one removal there, exactly when every
  // event of the run is proper.
  lemma {:induction false} ListingIsExact(s: Index, events: seq<Event>)
    requires Lasting(s)
    ensures (forall i :: 0 <= i <= |events| ==> LastingAt(s, events, i)) <==>
            (forall i :: 0 <= i < |events| ==> ProperAt(s, events, i))
  {
    if events == [] {
      assert events[..0] == [];
    } else {
      var n := |events| - 1;
      var before := events[..n];
      ListingIsExact(s, before);
      SameEarlier(s, events);
      assert events[..n+1] == events;
      if LastingAt(s, events, n) {
        StepLasts(Run(s, before), events[n]);
        assert LastingAt(s, events, n + 1) <==> ProperAt(s, events, n);
      }
    }
  }

  // In every run of proper events that starts without flows, the listing of any ONU finds every key,
  // once. An add is proper whenever no ONU has the flow ID.
  lemma FlowListing(s: Index, events: seq<Event>, k: nat)
    requires k < |s.onus|
    requires forall j :: 0 <= j < |s.onus| ==> s.onus[j].flows == []
    requires forall i :: 0 <= i < |events| ==> ProperAt(s, events, i)
    ensures Listable(Run(s, events), k)
  {
    assert Agrees(s);
    AgreesLists(s);
    if s.alive {
      LastingIs(s);
    }
    ListingIsExact(s, events);
    assert events[..|events|] == events;
    assert LastingAt(s, events, |events|);
  }

  // Adding an accepted flow twice and removing it once always leaves a key without a flow.
  lemma ReAddBreaksListing(s: Index, f: Flow)
    requires s.alive && IsOnuFlow(f) && PonOf(f) < s.pons && Find(s.onus, f).Some?
    ensures var k := Find(s.onus, f).value;
      && k < |s.onus|
      && !Listable(Run(s, [Add(f, false), Add(f, false), Remove(f.flowId)]), k)
  {
    FindFromFirst(s.onus, PonOf(f), OnuOf(f), 0);
    var k := Find(s.onus, f).value;
    var s1 := Step(s, Add(f, false));
    FindIgnoresFlows(s.onus, s1.onus, f);
    var s2 := Step(s1, Add(f, false));
    FindIgnoresFlows(s.onus, s2.onus, f);
    var s3 := Step(s2, Remove(f.flowId));
    var flows := s.onus[k].flows;
    assert s2.onus[k].flows == flows + [f.flowId] + [f.flowId];
    StillThere(flows + [f.flowId], f.flowId);
    assert f.flowId in s3.onus[k].flows && f.flowId !in s3.flows;
    var events := [Add(f, false), Add(f, false), Remove(f.flowId)];
    assert events[..2] == [Add(f, false), Add(f, false)] && events[..2][..1] == [Add(f, false)] && events[..2][..1][..0] == [];
    assert Run(s, events[..2][..1]) == s1 && Run(s, events[..2]) == s2 && Run(s, events) == s3;
  }

  // ----- the device

  class FlowStore {
    const pons: uint32
    var onus: seq<Onu>
    var flows: map<uint64, Flow>
    var alive: bool

    ghost function View(): Index
      reads this
    {
      Index(pons, onus, flows, alive)
    }

    method FindOnu(f: Flow) returns (k: Option<nat>)
      ensures k == Find(onus, f)
      ensures k.Some? ==> k.value < |onus|
    {
      FindFromFirst(onus, PonOf(f), OnuOf(f), 0);
      for i := 0 to |onus|
        invariant forall j :: 0 <= j < i ==> !(onus[j].pon == PonOf(f) && onus[j].id == OnuOf(f))
      {
        if onus[i].pon == PonOf(f) && onus[i].id == OnuOf(f) {
          return Some(i);
        }
      }
      return None;
    }

    method FlowAdd(f: Flow, disabled: bool)
      requires alive
      modifies this
      ensures View() == Step(old(View()), Add(f, disabled))
    {
      flows := flows[f.flowId := f];
      if f.accessIntfId == -1 || f.flowType == MULTICAST {
        return;
      }
      if PonOf(f) >= pons {
        alive := false;
        return;
      }
      var k := FindOnu(f);
      if k.None? || disabled {
        return;
      }
      onus := onus[k.value := onus[k.value].(flows := onus[k.value].flows + [f.flowId])];
    }

    // DeleteFlow
    method DeleteFlow(k: nat, id: uint64)
      requires k < |onus|
      modifies this`onus
      ensures onus == old(onus)[k := old(onus)[k].(flows := Without(old(onus)[k].flows, id))]
    {
      var keys := onus[k].flows;
      for pos := 0 to |keys|
        invariant onus == old(onus)
        invariant id !in keys[..pos]
      {
        if keys[pos] == id {
          WithoutFirst(keys, id, pos);
          onus := onus[k := onus[k].(flows := keys[..pos] + keys[pos+1..])];
          return;
        }
      }
      assert keys[..|keys|] == keys;
      WithoutAbsent(keys, id);
    }

    method FlowRemove(id: uint64) returns (found: bool)
      requires alive
      modifies this
      ensures found == (id in old(flows))
      ensures View() == Step(old(View()), Remove(id))
    {
      if id !in flows {
        return false;
      }
      var stored := flows[id];
      if stored.accessIntfId != -1 {
        if PonOf(stored) >= pons {
          return true;
        }
        var k := FindOnu(stored);
        if k.None? {
          return true;
        }
        DeleteFlow(k.value, id);
      }
      flows := flows - {id};
      return true;
    }

    // The listing of one ONU; None is the panic on a key without a flow.
    method GetFlows(k: nat) returns (list: Option<seq<Flow>>)
      requires k < |onus|
      ensures list.Some? <==> forall id :: id in onus[k].flows ==> id in flows
      ensures list.Some? ==> |list.value| == |onus[k].flows|
      ensures list.Some? ==>
        forall i :: 0 <= i < |onus[k].flows| ==> onus[k].flows[i] in flows && list.value[i] == flows[onus[k].flows[i]]
    {
      var found: seq<Flow> := [];
      for i := 0 to |onus[k].flows|
        invariant |found| == i
        invariant forall j :: 0 <= j < i ==> onus[k].flows[j] in flows && found[j] == flows[onus[k].flows[j]]
      {
        if onus[k].flows[i] !in flows {
          return None;
        }
        found := found + [flows[onus[k].flows[i]]];
      }
      return Some(found);
    }
  }
}
