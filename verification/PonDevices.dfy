/** The PON port and its ONUs as objects that update each other in place.

    Every method is proved against the values of PonLifecycle: the view of the PON after the call
    is the step function applied to its view before. */
module PonDevices {
  import opened MachineIntegers
  import opened StateMachines
  import opened PonLifecycle

  class OnuDevice {
    const pon: PonPort
    const index: nat // stands for the pointer to the serial number
    var id: uint32
    var state: OnuState
    var operUp: bool

    ghost predicate Attached()
      reads this, pon, pon.onus
    {
      pon.Valid() && index < |pon.onus| && pon.onus[index] == this
    }

    ghost function View(): Onu
      reads this
    {
      Onu(id, state, operUp)
    }

    constructor (pon: PonPort, index: nat, id: uint32)
      ensures this.pon == pon && this.index == index && View() == Onu(id, Created, false)
    {
      this.pon, this.index, this.id := pon, index, id;
      state, operUp := Created, false;
    }

    // cleanupOnuState
    method CleanupState()
      requires Attached()
      modifies pon
      ensures Attached() && pon.onus == old(pon.onus)
      ensures pon.View() == Cleanup(old(pon.View()), index)
    {
      pon.onuIds := pon.onuIds - {id};
      pon.RemoveAllocIdsFor(index);
      pon.RemoveGemPortsFor(index);
    }

    // An event of the internal state machine, with the callback of the state it enters.
    method FireEvent(e: OnuEvent) returns (accepted: bool)
      requires Attached()
      modifies this, pon
      ensures Attached() && pon.onus == old(pon.onus)
      ensures accepted == OnuAccepts(old(state), e)
      ensures pon.View() == Send(old(pon.View()), index, e)
    {
      accepted := OnuAccepts(state, e);
      if accepted {
        assert forall j :: 0 <= j < |pon.onus| && j != index ==> pon.onus[j] != this;
        state := OnuTarget(e);
        assert pon.View() == WithState(old(pon.View()), index, OnuTarget(e));
        EnterState();
      }
    }

    // The callback of the state that was entered.
    method EnterState()
      requires Attached()
      modifies this`operUp, pon
      ensures Attached() && pon.onus == old(pon.onus)
      ensures pon.View() == Enter(old(pon.View()), index, state)
    {
      assert forall j :: 0 <= j < |pon.onus| && j != index ==> pon.onus[j] != this;
      match state
      case Initialized =>
        operUp := true;
      case Enabled =>
        if id !in pon.onuIds {
          pon.onuIds := pon.onuIds[id := index];
        }
      case Disabled =>
        CleanupState();
        operUp := false;
      case PonDown =>
        CleanupState();
      case _ =>
    }

    // HandlePowerOnONU; a refused event ends it with an error.
    method PowerOn() returns (ok: bool)
      requires Attached()
      modifies this, pon
      ensures Attached() && pon.onus == old(pon.onus)
      ensures ok <==> old(state) in {Created, Initialized, Disabled}
      ensures pon.View() == PonLifecycle.PowerOn(old(pon.View()), index)
      ensures state == (if old(state) in {Created, Initialized} then Discovered
                        else if old(state) == Disabled then Enabled else old(state))
      ensures pon.gems == old(pon.gems) && pon.allocs == old(pon.allocs) && id == old(id)
      ensures pon.onuIds == if old(state) == Disabled && id !in old(pon.onuIds) then old(pon.onuIds)[id := index] else old(pon.onuIds)
      ensures OnlyChanges(old(pon.View()), pon.View(), index)
    {
      PowerOnIs(pon.View(), index);
      var initial := state;
      OneEvent(pon.View(), index, Discover);
      TwoEvents(pon.View(), index, Initialize, Discover);
      ThreeEvents(pon.View(), index, Initialize, Discover, OnuEvent.Enable);
      if initial == Created || initial == Disabled {
        ok := FireEvent(Initialize);
      }
      ok := FireEvent(Discover);
      if ok && initial == Disabled {
        ok := FireEvent(OnuEvent.Enable);
      }
    }

    method Reboot() returns (ok: bool)
      requires Attached()
      modifies this, pon
      ensures Attached() && pon.onus == old(pon.onus)
      ensures ok <==> OnuAccepts(old(state), Disable)
      ensures pon.View() == PonLifecycle.Reboot(old(pon.View()), index)
    {
      ok := FireEvent(Disable);
      if ok {
        ok := PowerOn();
      }
    }

    // The GEM port part of an OMCI create request; a refused request changes nothing.
    method CreateGemPort(gem: uint16) returns (refused: bool)
      requires Attached()
      modifies pon`gems
      ensures Attached()
      ensures refused <==> gem != MULTICAST_GEM && gem in old(pon.gems)
      ensures refused ==> pon.gems == old(pon.gems)
      ensures !refused && gem != MULTICAST_GEM ==> Records(pon.View(), GemEntry(gem, index))
      ensures forall mode :: pon.View() == Step(mode, old(pon.View()), CreateGem(index, gem))
    {
      refused := false;
      if gem != MULTICAST_GEM {
        if gem in pon.gems {
          refused := true;
        } else {
          pon.gems := pon.gems[gem := index];
        }
      }
    }

    // The GEM port part of an OMCI delete request, whoever owns the port.
    method DeleteGemPort(gem: uint16)
      requires Attached()
      modifies pon`gems
      ensures Attached()
      ensures forall mode :: pon.View() == Step(mode, old(pon.View()), DeleteGem(index, gem))
    {
      pon.gems := pon.gems - {gem};
    }

    // The T-CONT part of an OMCI set request: two alloc IDs stand for removal, and an entity that
    // has an alloc ID keeps it.
    method SetTCont(entity: uint16, allocId: uint16) returns (applied: bool)
      requires Attached()
      modifies pon`allocs
      ensures Attached()
      ensures applied <==> allocId in NO_ALLOC || AllocKey(pon.id, id, entity) !in old(pon.allocs)
      ensures forall mode :: pon.View() == Step(mode, old(pon.View()), Event.SetTCont(index, entity, allocId))
    {
      var key := AllocKey(pon.id, id, entity);
      if allocId == 255 || allocId == 65535 {
        pon.allocs := pon.allocs - {key};
        return true;
      }
      if key in pon.allocs {
        return false;
      }
      pon.allocs := pon.allocs[key := AllocVal(index, allocId)];
      return true;
    }

    // The table part of an OMCI MIB reset.
    method ResetMib()
      requires Attached()
      modifies pon`gems, pon`allocs
      ensures Attached()
      ensures forall mode :: pon.View() == Step(mode, old(pon.View()), MibReset(index))
    {
      pon.RemoveAllocIdsFor(index);
      pon.RemoveGemPortsFor(index);
    }

    method Activate(newId: uint32)
      requires Attached()
      modifies this, pon
      ensures Attached() && pon.onus == old(pon.onus)
      ensures pon.View() == PonLifecycle.Activate(old(pon.View()), index, newId)
    {
      id := newId;
      assert forall j :: 0 <= j < |pon.onus| && j != index ==> pon.onus[j] != this;
      assert pon.View() == SetId(old(pon.View()), index, newId);
      var _ := FireEvent(Enable);
    }
  }

  class PonPort {
    const id: uint32
    var state: PonState
    var onus: seq<OnuDevice>
    var onuIds: OnuIds
    var gems: GemPorts
    var allocs: AllocIds

    ghost predicate Valid()
      reads this, onus
    {
      forall k :: 0 <= k < |onus| ==> onus[k].pon == this && onus[k].index == k
    }

    ghost function View(): Pon
      reads this, onus
    {
      Pon(id, state, seq(|onus|, k requires 0 <= k < |onus| reads this, onus => onus[k].View()), onuIds, gems, allocs)
    }

    // The loop over the table that drops the GEM ports of one ONU.
    method RemoveGemPortsFor(owner: nat)
      modifies this`gems
      ensures gems == GemsWithout(old(gems), owner)
    {
      var todo := gems.Keys;
      while todo != {}
        invariant todo <= gems.Keys <= old(gems).Keys
        invariant forall g :: g in old(gems) ==> (g in gems <==> g in todo || old(gems)[g] != owner)
        invariant forall g :: g in gems ==> gems[g] == old(gems)[g]
      {
        var g :| g in todo;
        if gems[g] == owner {
          gems := gems - {g};
        }
        todo := todo - {g};
      }
    }

    method RemoveAllocIdsFor(owner: nat)
      modifies this`allocs
      ensures allocs == AllocsWithout(old(allocs), owner)
    {
      var todo := allocs.Keys;
      while todo != {}
        invariant todo <= allocs.Keys <= old(allocs).Keys
        invariant forall a :: a in old(allocs) ==> (a in allocs <==> a in todo || old(allocs)[a].owner != owner)
        invariant forall a :: a in allocs ==> allocs[a] == old(allocs)[a]
      {
        var a :| a in todo;
        if allocs[a].owner == owner {
          allocs := allocs - {a};
        }
        todo := todo - {a};
      }
    }

    method Disable()
      requires Valid()
      modifies this, onus
      ensures Valid() && onus == old(onus)
      ensures View() == TurnOff(old(View()))
    {
      if state != PonEnabled {
        return;
      }
      state := PonDisabled;
      ghost var start := View();
      assert start == old(View()).(state := PonDisabled);
      for i := 0 to |onus|
        invariant Valid() && onus == old(onus)
        invariant View() == Cascade(GoDown, start, i)
      {
        var onu := onus[i];
        OneEvent(View(), i, PonDisable);
        if onu.state != Initialized && onu.state != OnuState.Disabled {
          var _ := onu.FireEvent(PonDisable);
        }
      }
    }

    method Enable(mode: Mode)
      requires Valid()
      modifies this, onus
      ensures Valid() && onus == old(onus)
      ensures View() == TurnOn(mode, old(View()))
    {
      if state == PonEnabled {
        return;
      }
      var from := state;
      state := PonEnabled;
      ghost var start := View();
      assert start == old(View()).(state := PonEnabled);
      for i := 0 to |onus|
        invariant Valid() && onus == old(onus)
        invariant View() == Cascade(GoUp(mode, from), start, i)
      {
        EnableOne(mode, from, i);
      }
    }

    // What an ONU of a PON that comes up is told.
    method EnableOne(mode: Mode, from: PonState, i: nat)
      requires Valid() && i < |onus|
      modifies this, onus
      ensures Valid() && onus == old(onus)
      ensures View() == TellOne(GoUp(mode, from), old(View()), i)
    {
      var onu := onus[i];
      var ok;
      ghost var p := View();
      OneEvent(p, i, Initialize);
      OneEvent(p, i, OnuEvent.Enable);
      OneEvent(p, i, Discover);
      TwoEvents(p, i, Initialize, Discover);
      if from == PonCreated {
        if mode == Default || mode == OnlyPon {
          ok := onu.FireEvent(Initialize);
          if ok {
            ok := onu.FireEvent(Discover);
          }
        }
      } else if mode == OnlyOnu || mode == Both {
        ok := onu.FireEvent(Initialize);
      } else if onu.state == PonDown {
        ok := onu.FireEvent(OnuEvent.Enable);
      } else if onu.state == OnuState.Disabled {
        ok := onu.FireEvent(Initialize);
        if ok {
          ok := onu.FireEvent(Discover);
        }
      } else if onu.state == Initialized {
        ok := onu.FireEvent(Discover);
      }
    }
  }
}
