/** The nested resource tables of the OLT (GemPortIDs and AllocIDs).

    A table maps PON, ONU, port and resource ID to the set of flows using the resource. The source
    stores the flow set as a map to true, so a set loses nothing. The class updates the nested maps
    along full paths and sweeps them with deletion; the lemmas relate them to plain sets of entries. */
module FlowResources {
  import opened MachineIntegers

  type PortTable = map<int32, set<uint64>>
  type OnuTable = map<uint32, PortTable>
  type PonTable = map<uint32, OnuTable>
  type Table = map<uint32, PonTable>

  datatype Entry = Entry(pon: uint32, onu: uint32, port: uint32, res: int32, flow: uint64)

  predicate Activated(t: Table, pon: uint32, onu: uint32) {
    pon in t && onu in t[pon]
  }

  predicate HasPort(t: Table, pon: uint32, onu: uint32, port: uint32) {
    Activated(t, pon, onu) && port in t[pon][onu]
  }

  // The resource is listed under this ONU and port, whatever flows it carries.
  predicate Lists(t: Table, pon: uint32, onu: uint32, port: uint32, res: int32) {
    HasPort(t, pon, onu, port) && res in t[pon][onu][port]
  }

  predicate Records(t: Table, e: Entry) {
    Lists(t, e.pon, e.onu, e.port, e.res) && e.flow in t[e.pon][e.onu][e.port][e.res]
  }

  ghost function Entries(t: Table): iset<Entry> {
    iset e: Entry | Records(t, e)
  }

  // No resource is listed without a flow that uses it.
  ghost predicate NoEmptyResource(t: Table) {
    forall pon: uint32, onu: uint32, port: uint32, res: int32 ::
      Lists(t, pon, onu, port, res) ==> t[pon][onu][port][res] != {}
  }

  // Some ONU of the PON other than this one lists one of the resources.
  ghost predicate UsedElsewhere(t: Table, pon: uint32, onu: uint32, ids: set<int32>) {
    exists onu', port, res :: onu' != onu && res in ids && Lists(t, pon, onu', port, res)
  }

  // ----- what the operations do to the nested maps

  function WithOnu(t: Table, pon: uint32, onu: uint32, m: OnuTable): Table
    requires pon in t
  {
    t[pon := t[pon][onu := m]]
  }

  function WithPort(t: Table, pon: uint32, onu: uint32, port: uint32, m: PortTable): Table
    requires Activated(t, pon, onu)
  {
    WithOnu(t, pon, onu, t[pon][onu][port := m])
  }

  // Writing back what is there changes nothing, and the last of two writes wins.
  lemma OnuWrites(t: Table, pon: uint32, onu: uint32, m: OnuTable, m': OnuTable)
    requires Activated(t, pon, onu)
    ensures WithOnu(t, pon, onu, t[pon][onu]) == t
    ensures WithOnu(WithOnu(t, pon, onu, m), pon, onu, m') == WithOnu(t, pon, onu, m')
  {
    assert t[pon][onu := t[pon][onu]] == t[pon];
    assert t[pon][onu := m][onu := m'] == t[pon][onu := m'];
  }

  lemma PortWrites(t: Table, pon: uint32, onu: uint32, port: uint32, m: PortTable, m': PortTable)
    requires Activated(t, pon, onu)
    ensures HasPort(t, pon, onu, port) ==> WithPort(t, pon, onu, port, t[pon][onu][port]) == t
    ensures WithPort(WithPort(t, pon, onu, port, m), pon, onu, port, m') == WithPort(t, pon, onu, port, m')
  {
    var ports := t[pon][onu];
    OnuWrites(t, pon, onu, ports[port := m], ports[port := m']);
    assert ports[port := m][port := m'] == ports[port := m'];
    if port in ports {
      assert ports[port := ports[port]] == ports;
    }
  }

  function PortAt(t: Table, pon: uint32, onu: uint32, port: uint32): PortTable
    requires Activated(t, pon, onu)
  {
    if port in t[pon][onu] then t[pon][onu][port] else map[]
  }

  function WithFlow(m: PortTable, res: int32, flow: uint64): PortTable {
    m[res := (if res in m then m[res] else {}) + {flow}]
  }

  function Stored(t: Table, e: Entry): Table
    requires Activated(t, e.pon, e.onu)
  {
    WithPort(t, e.pon, e.onu, e.port, WithFlow(PortAt(t, e.pon, e.onu, e.port), e.res, e.flow))
  }

  function FreedPort(m: PortTable, flow: uint64): PortTable {
    map res | res in m && m[res] != {flow} :: m[res] - {flow}
  }

  function FreedOnu(m: OnuTable, flow: uint64): OnuTable {
    map port | port in m :: FreedPort(m[port], flow)
  }

  function FreedPon(m: PonTable, flow: uint64): PonTable {
    map onu | onu in m :: FreedOnu(m[onu], flow)
  }

  function Freed(t: Table, flow: uint64): Table {
    map pon | pon in t :: FreedPon(t[pon], flow)
  }

  function OnuReset(t: Table, pon: uint32, onu: uint32): Table
    requires pon in t
  {
    WithOnu(t, pon, onu, map[])
  }

  predicate IsPon(pon: uint32, n: uint32) {
    pon < n
  }

  function EmptyPons(n: uint32): Table {
    map pon: uint32 | IsPon(pon, n) :: map[]
  }

  // ----- the same operations on sets of entries

  lemma StoredRecords(t: Table, e: Entry, x: Entry)
    requires Activated(t, e.pon, e.onu)
    ensures Records(Stored(t, e), x) <==> Records(t, x) || x == e
  {
  }

  lemma StoredEntries(t: Table, e: Entry)
    requires Activated(t, e.pon, e.onu)
    ensures Entries(Stored(t, e)) == Entries(t) + iset{e}
    ensures NoEmptyResource(t) ==> NoEmptyResource(Stored(t, e))
  {
    forall x: Entry
      ensures x in Entries(Stored(t, e)) <==> x in Entries(t) + iset{e}
    {
      StoredRecords(t, e, x);
    }
  }

  lemma FreedEntries(t: Table, flow: uint64)
    ensures Entries(Freed(t, flow)) == iset e: Entry | e in Entries(t) && e.flow != flow
    ensures NoEmptyResource(t) ==> NoEmptyResource(Freed(t, flow))
    ensures forall pon, onu :: Activated(Freed(t, flow), pon, onu) <==> Activated(t, pon, onu)
  {
  }

  lemma OnuResetEntries(t: Table, pon: uint32, onu: uint32)
    requires pon in t
    ensures Entries(OnuReset(t, pon, onu)) == iset e: Entry | e in Entries(t) && !(e.pon == pon && e.onu == onu)
    ensures NoEmptyResource(t) ==> NoEmptyResource(OnuReset(t, pon, onu))
    ensures forall p, o :: Activated(OnuReset(t, pon, onu), p, o) <==> Activated(t, p, o) || (p == pon && o == onu)
  {
  }

  lemma FreedPortUndoes(m: PortTable, res: int32, flow: uint64)
    requires forall r :: r in m ==> flow !in m[r] && m[r] != {}
    ensures FreedPort(m, flow) == m
    ensures FreedPort(WithFlow(m, res, flow), flow) == m
  {
    forall r | r in m
      ensures m[r] - {flow} == m[r] && m[r] + {flow} - {flow} == m[r] && m[r] != {flow} && m[r] + {flow} != {flow}
    {
      var x :| x in m[r];
      assert x in m[r] + {flow};
    }
  }

  ghost predicate FreshFlow(t: Table, flow: uint64) {
    forall e: Entry :: Records(t, e) ==> e.flow != flow
  }

  lemma FreshInPort(t: Table, flow: uint64, pon: uint32, onu: uint32, port: uint32)
    requires NoEmptyResource(t) && FreshFlow(t, flow) && HasPort(t, pon, onu, port)
    ensures forall r :: r in t[pon][onu][port] ==> flow !in t[pon][onu][port][r] && t[pon][onu][port][r] != {}
  {
    forall r | r in t[pon][onu][port]
      ensures flow !in t[pon][onu][port][r] && t[pon][onu][port][r] != {}
    {
      assert Lists(t, pon, onu, port, r);
      assert flow in t[pon][onu][port][r] ==> Records(t, Entry(pon, onu, port, r, flow));
    }
  }

  lemma FreedFresh(t: Table, flow: uint64)
    requires NoEmptyResource(t) && FreshFlow(t, flow)
    ensures Freed(t, flow) == t
  {
    forall pon | pon in t
      ensures FreedPon(t[pon], flow) == t[pon]
    {
      forall onu | onu in t[pon]
        ensures FreedOnu(t[pon][onu], flow) == t[pon][onu]
      {
        forall port | port in t[pon][onu]
          ensures FreedPort(t[pon][onu][port], flow) == t[pon][onu][port]
        {
          FreshInPort(t, flow, pon, onu, port);
          FreedPortUndoes(t[pon][onu][port], 0, flow);
        }
      }
    }
  }

  lemma FreedWrite(t: Table, flow: uint64, pon: uint32, onu: uint32, port: uint32, m: PortTable)
    requires Activated(t, pon, onu)
    ensures Freed(WithPort(t, pon, onu, port, m), flow) == WithPort(Freed(t, flow), pon, onu, port, FreedPort(m, flow))
  {
    var ports, onus := t[pon][onu], t[pon];
    assert FreedOnu(ports[port := m], flow) == FreedOnu(ports, flow)[port := FreedPort(m, flow)];
    var ports' := ports[port := m];
    assert FreedPon(onus[onu := ports'], flow) == FreedPon(onus, flow)[onu := FreedOnu(ports', flow)];
  }

  lemma StoreThenFreePort(t: Table, e: Entry)
    requires HasPort(t, e.pon, e.onu, e.port)
    requires NoEmptyResource(t) && FreshFlow(t, e.flow)
    ensures Freed(Stored(t, e), e.flow) == t
  {
    var m := t[e.pon][e.onu][e.port];
    FreshInPort(t, e.flow, e.pon, e.onu, e.port);
    FreedPortUndoes(m, e.res, e.flow);
    FreedFresh(t, e.flow);
    FreedWrite(t, e.flow, e.pon, e.onu, e.port, Stored(t, e)[e.pon][e.onu][e.port]);
    PortWrites(t, e.pon, e.onu, e.port, m, m);
  }

  // Storing an entry of a fresh flow and freeing that flow restores the entries. The maps
  // themselves are restored exactly when the port was already listed, as freeing keeps ports.
  lemma StoreThenFree(t: Table, e: Entry)
    requires Activated(t, e.pon, e.onu)
    requires NoEmptyResource(t) && FreshFlow(t, e.flow)
    ensures Entries(Freed(Stored(t, e), e.flow)) == Entries(t)
    ensures Freed(Stored(t, e), e.flow) == t <==> HasPort(t, e.pon, e.onu, e.port)
  {
    StoredEntries(t, e);
    FreedEntries(Stored(t, e), e.flow);
    if HasPort(t, e.pon, e.onu, e.port) {
      StoreThenFreePort(t, e);
    } else {
      assert HasPort(Freed(Stored(t, e), e.flow), e.pon, e.onu, e.port);
    }
  }

  class ResourceTable {
    var ids: Table

    constructor (n: uint32)
      ensures ids == EmptyPons(n)
    {
      ids := EmptyPons(n);
    }

    // A write below one port, which replaces any earlier write there.
    method SetPort(pon: uint32, onu: uint32, port: uint32, m: PortTable)
      requires Activated(ids, pon, onu)
      modifies this
      ensures ids == WithPort(old(ids), pon, onu, port, m)
      ensures forall t: Table, m0: PortTable ::
                Activated(t, pon, onu) && old(ids) == WithPort(t, pon, onu, port, m0)
                ==> ids == WithPort(t, pon, onu, port, m)
    {
      ids := WithPort(ids, pon, onu, port, m);
      forall t: Table, m0: PortTable | Activated(t, pon, onu) && old(ids) == WithPort(t, pon, onu, port, m0)
        ensures ids == WithPort(t, pon, onu, port, m)
      {
        PortWrites(t, pon, onu, port, m0, m);
      }
    }

    // The write path of storeGemPortId and storeAllocId. Writing below a PON or an ONU that has no
    // map is a run-time panic in the source, hence the precondition.
    method Store(e: Entry)
      requires Activated(ids, e.pon, e.onu)
      modifies this
      ensures ids == Stored(old(ids), e)
      ensures Entries(ids) == old(Entries(ids)) + iset{e}
    {
      ghost var m := Stored(ids, e)[e.pon][e.onu][e.port];
      if e.port !in ids[e.pon][e.onu] {
        SetPort(e.pon, e.onu, e.port, map[]);
      }
      if e.res !in ids[e.pon][e.onu][e.port] {
        SetPort(e.pon, e.onu, e.port, ids[e.pon][e.onu][e.port][e.res := {}]);
      }
      var flows := ids[e.pon][e.onu][e.port][e.res];
      SetPort(e.pon, e.onu, e.port, ids[e.pon][e.onu][e.port][e.res := flows + {e.flow}]);
      assert ids[e.pon][e.onu][e.port] == m;
      StoredEntries(old(ids), e);
    }

    // The search of validateFlow through the other ONUs of the PON.
    method IsUsedElsewhere(pon: uint32, onu: uint32, ids: set<int32>) returns (used: bool)
      ensures used <==> UsedElsewhere(this.ids, pon, onu, ids)
    {
      if pon !in this.ids {
        return false;
      }
      var onus := this.ids[pon].Keys;
      while onus != {}
        invariant onus <= this.ids[pon].Keys
        invariant forall o, port, res :: o != onu && o !in onus && Lists(this.ids, pon, o, port, res) ==> res !in ids
      {
        var o :| o in onus;
        onus := onus - {o};
        if o == onu {
          continue;
        }
        var ports := this.ids[pon][o].Keys;
        while ports != {}
          invariant ports <= this.ids[pon][o].Keys
          invariant forall port, res :: port !in ports && Lists(this.ids, pon, o, port, res) ==> res !in ids
        {
          var port :| port in ports;
          ports := ports - {port};
          var resources := this.ids[pon][o][port].Keys;
          while resources != {}
            invariant resources <= this.ids[pon][o][port].Keys
            invariant forall res :: res !in resources && Lists(this.ids, pon, o, port, res) ==> res !in ids
          {
            var res :| res in resources;
            resources := resources - {res};
            if res in ids {
              assert Lists(this.ids, pon, o, port, res);
              return true;
            }
          }
        }
      }
      return false;
    }

    // The sweep of freeGemPortId and freeAllocId: every level ranges over its keys in any order,
    // and the innermost level deletes the flow and then the resource it leaves without flows.
    method Free(flow: uint64)
      modifies this
      ensures ids == Freed(old(ids), flow)
      ensures Entries(ids) == iset e: Entry | e in old(Entries(ids)) && e.flow != flow
      ensures old(NoEmptyResource(ids)) ==> NoEmptyResource(ids)
    {
      var todo := ids.Keys;
      while todo != {}
        invariant todo <= ids.Keys == old(ids).Keys
        invariant forall pon :: pon in ids ==>
          ids[pon] == if pon in todo then old(ids)[pon] else FreedPon(old(ids)[pon], flow)
      {
        var pon :| pon in todo;
        FreeOnPon(pon, flow);
        todo := todo - {pon};
      }
      FreedEntries(old(ids), flow);
    }

    method FreeOnPon(pon: uint32, flow: uint64)
      requires pon in ids
      modifies this
      ensures ids == old(ids)[pon := FreedPon(old(ids)[pon], flow)]
    {
      ghost var was := ids[pon];
      var todo := ids[pon].Keys;
      while todo != {}
        invariant pon in ids && ids == old(ids)[pon := ids[pon]]
        invariant todo <= ids[pon].Keys == was.Keys
        invariant forall onu :: onu in was ==>
          ids[pon][onu] == if onu in todo then was[onu] else FreedOnu(was[onu], flow)
      {
        var onu :| onu in todo;
        FreeOnOnu(pon, onu, flow);
        todo := todo - {onu};
      }
      assert ids[pon] == FreedPon(was, flow);
    }

    method FreeOnOnu(pon: uint32, onu: uint32, flow: uint64)
      requires Activated(ids, pon, onu)
      modifies this
      ensures ids == WithOnu(old(ids), pon, onu, FreedOnu(old(ids)[pon][onu], flow))
    {
      ghost var was := ids[pon][onu];
      var todo := ids[pon][onu].Keys;
      OnuWrites(ids, pon, onu, was, was);
      while todo != {}
        invariant Activated(ids, pon, onu)
        invariant ids == WithOnu(old(ids), pon, onu, ids[pon][onu])
        invariant todo <= ids[pon][onu].Keys == was.Keys
        invariant forall port :: port in was ==>
          ids[pon][onu][port] == if port in todo then was[port] else FreedPort(was[port], flow)
      {
        var port :| port in todo;
        ghost var before := ids[pon][onu];
        FreeOnPort(pon, onu, port, flow);
        OnuWrites(old(ids), pon, onu, before, ids[pon][onu]);
        todo := todo - {port};
      }
      assert ids[pon][onu] == FreedOnu(was, flow);
    }

    method FreeOnPort(pon: uint32, onu: uint32, port: uint32, flow: uint64)
      requires HasPort(ids, pon, onu, port)
      modifies this
      ensures ids == WithPort(old(ids), pon, onu, port, FreedPort(old(ids)[pon][onu][port], flow))
    {
      ghost var was := ids[pon][onu][port];
      var todo := ids[pon][onu][port].Keys;
      PortWrites(ids, pon, onu, port, was, was);
      while todo != {}
        invariant HasPort(ids, pon, onu, port)
        invariant ids == WithPort(old(ids), pon, onu, port, ids[pon][onu][port])
        invariant todo <= ids[pon][onu][port].Keys <= was.Keys
        invariant forall res :: res in was ==>
          (res in ids[pon][onu][port] <==> res in todo || was[res] != {flow})
        invariant forall res :: res in ids[pon][onu][port] ==>
          ids[pon][onu][port][res] == if res in todo then was[res] else was[res] - {flow}
      {
        var res :| res in todo;
        ghost var before := ids[pon][onu][port];
        FreeOnResource(pon, onu, port, res, flow);
        PortWrites(old(ids), pon, onu, port, before, ids[pon][onu][port]);
        todo := todo - {res};
      }
      assert ids[pon][onu][port] == FreedPort(was, flow);
    }

    method FreeOnResource(pon: uint32, onu: uint32, port: uint32, res: int32, flow: uint64)
      requires Lists(ids, pon, onu, port, res)
      modifies this
      ensures var m := old(ids)[pon][onu][port];
        ids == WithPort(old(ids), pon, onu, port,
                        if m[res] == {flow} then m - {res} else m[res := m[res] - {flow}])
    {
      ghost var m := ids[pon][onu][port];
      var todo := ids[pon][onu][port][res];
      PortWrites(ids, pon, onu, port, m, m);
      assert m[res := m[res]] == m;
      assert flow !in m[res] ==> m[res] - {flow} == m[res];
      while todo != {}
        invariant HasPort(ids, pon, onu, port)
        invariant todo <= m[res]
        invariant ids == WithPort(old(ids), pon, onu, port, ids[pon][onu][port])
        invariant ids[pon][onu][port] ==
          if m[res] == {flow} && todo == {} then m - {res}
          else m[res := if flow in todo then m[res] else m[res] - {flow}]
      {
        var id :| id in todo;
        if id == flow {
          SetPort(pon, onu, port, ids[pon][onu][port][res := ids[pon][onu][port][res] - {flow}]);
        }
        if ids[pon][onu][port][res] == {} {
          SetPort(pon, onu, port, ids[pon][onu][port] - {res});
        }
        todo := todo - {id};
      }
    }
  }
}
