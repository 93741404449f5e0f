/** Services, UNIs and their ONU as objects, proved against the values of ServiceChain. */
module ServiceDevices {
  import opened Options
  import opened StateMachines
  import opened ServiceChain

  class ServiceDevice {
    const uni: nat // the position of its UNI
    const index: nat
    const needsEapol: bool
    const needsDhcp: bool
    var state: ServiceState
    var eapol: EapolState
    var dhcp: DhcpState
    var channel: bool // not nil

    ghost function View(): Service
      reads this
    {
      Service(state, eapol, dhcp, channel, needsEapol, needsDhcp)
    }

    constructor (uni: nat, index: nat, needsEapol: bool, needsDhcp: bool)
      ensures this.uni == uni && this.index == index
      ensures View() == Service(ServiceCreated, EapolCreated, DhcpCreated, false, needsEapol, needsDhcp)
    {
      this.uni, this.index, this.needsEapol, this.needsDhcp := uni, index, needsEapol, needsDhcp;
      state, eapol, dhcp, channel := ServiceCreated, EapolCreated, DhcpCreated, false;
    }

    method Initialize()
      modifies this
      ensures View() == Opened(old(View()))
    {
      if state == ServiceCreated || state == ServiceDisabled {
        state := ServiceInitialized;
        channel := true;
      }
    }

    method Disable()
      modifies this
      ensures View() == Closed(old(View()))
    {
      if state == ServiceInitialized {
        state := ServiceDisabled;
        eapol := EapolCreated;
        dhcp := DhcpCreated;
        channel := false;
      }
    }

    // The start event of a protocol. The message is sent before the state changes.
    method Start(p: Protocol) returns (blocked: bool)
      modifies this
      ensures blocked == old(StartBlocks(View(), p))
      ensures View() == Started(old(View()), p)
      ensures blocked <==> old(AtRest(View(), p)) && !old(channel)
      ensures blocked ==> View() == old(View())
      ensures !blocked ==> GotStart(old(View()), View(), p)
    {
      var accepted := if p == Eapol then NextEapol(eapol, EapolStart).Some? else NextDhcp(dhcp, DhcpStart).Some?;
      if !accepted {
        return false;
      }
      if !channel {
        return true;
      }
      if p == Eapol {
        eapol := AuthStarted;
      } else {
        dhcp := DhcpStarted;
      }
      return false;
    }
  }

  class UniPort {
    const index: nat
    const services: seq<ServiceDevice>
    var up: bool

    ghost predicate Valid() {
      forall i :: 0 <= i < |services| ==> services[i].uni == index && services[i].index == i
    }

    constructor (index: nat, services: seq<ServiceDevice>)
      ensures this.index == index && this.services == services && !up
    {
      this.index, this.services, up := index, services, false;
    }

    ghost function View(): Uni
      reads this, services
    {
      Uni(up, seq(|services|, i requires 0 <= i < |services| reads this, services => services[i].View()))
    }

    method Enable()
      requires Valid()
      modifies this`up, services
      ensures View() == TurnedUp(old(View()))
    {
      if up {
        return;
      }
      up := true;
      for i := 0 to |services|
        invariant up
        invariant forall j :: 0 <= j < i ==> services[j].View() == Opened(old(services[j].View()))
        invariant forall j :: i <= j < |services| ==> services[j].View() == old(services[j].View())
      {
        services[i].Initialize();
      }
    }

    method Disable()
      requires Valid()
      modifies this`up, services
      ensures View() == TurnedDown(old(View()))
    {
      if !up {
        return;
      }
      up := false;
      for i := 0 to |services|
        invariant !up
        invariant forall j :: 0 <= j < i ==> services[j].View() == Closed(old(services[j].View()))
        invariant forall j :: i <= j < |services| ==> services[j].View() == old(services[j].View())
      {
        services[i].Disable();
      }
    }

    // One round of the loop below.
    method StartOne(i: nat, p: Protocol, sel: Selection) returns (blocked: bool)
      requires Valid() && i < |services|
      modifies services[i]
      ensures blocked == (old(Wanted(View().services, p, sel, i)) && old(StartBlocks(View().services[i], p)))
      ensures var was := old(View().services);
        View().services == if Wanted(was, p, sel, i) then was[i := Started(was[i], p)] else was
    {
      var s := services[i];
      blocked := false;
      var needed := if p == Eapol then s.needsEapol else s.needsDhcp;
      var wanted := needed &&
        match sel
        case Every => true
        case OnlyInitialized => s.state == ServiceInitialized
        case Matching(positions) => i in positions;
      assert forall j :: 0 <= j < |services| && j != i ==> services[j] != s;
      if wanted {
        blocked := s.Start(p);
      }
    }

    // HandleAuth, HandleDhcp and the inner loops of the restart calls.
    method Start(p: Protocol, sel: Selection) returns (blocked: bool)
      requires Valid()
      modifies services
      ensures blocked == Blocks(old(View().services), p, sel)
      ensures View() == old(View()).(services := StartAll(old(View().services), p, sel))
    {
      ghost var was := View().services;
      for i := 0 to |services|
        invariant !BlocksBefore(was, p, sel, i)
        invariant View().services == StartUpTo(was, p, sel, i)
      {
        StartNext(was, p, sel, i);
        var b := StartOne(i, p, sel);
        if b {
          BlockedStays(was, p, sel, i + 1, |was|);
          return true;
        }
      }
      return false;
    }
  }

  // The next service is still untouched, and dealing with it extends the loop by one round.
  lemma StartNext(was: seq<Service>, p: Protocol, sel: Selection, i: nat)
    requires i < |was| && !BlocksBefore(was, p, sel, i)
    ensures StartUpTo(was, p, sel, i)[i] == was[i]
    ensures var now := StartUpTo(was, p, sel, i);
      && Wanted(now, p, sel, i) == Wanted(was, p, sel, i)
      && BlocksBefore(was, p, sel, i + 1) == (Wanted(was, p, sel, i) && StartBlocks(was[i], p))
      && (!BlocksBefore(was, p, sel, i + 1) ==>
            StartUpTo(was, p, sel, i + 1) == if Wanted(was, p, sel, i) then now[i := Started(was[i], p)] else now)
      && (StartBlocks(was[i], p) ==> now[i := Started(was[i], p)] == now)
  {
    StartLeaves(was, p, sel, i, i);
  }

  lemma {:induction false} StartLeaves(services: seq<Service>, p: Protocol, sel: Selection, n: nat, i: nat)
    requires n <= i < |services|
    ensures StartUpTo(services, p, sel, n)[i] == services[i]
  {
    if n > 0 {
      StartLeaves(services, p, sel, n - 1, i);
    }
  }

  // Once a service blocks, nothing further is started.
  lemma {:induction false} BlockedStays(services: seq<Service>, p: Protocol, sel: Selection, m: nat, n: nat)
    requires 0 < m <= n <= |services| && BlocksBefore(services, p, sel, m)
    ensures StartUpTo(services, p, sel, n) == StartUpTo(services, p, sel, m - 1)
    ensures BlocksBefore(services, p, sel, n)
  {
    if m < n {
      BlockedStays(services, p, sel, m, n - 1);
    }
  }

  class OnuPorts {
    const unis: seq<UniPort>
    var state: OnuState

    ghost predicate Valid() {
      forall u :: 0 <= u < |unis| ==> unis[u].index == u && unis[u].Valid()
    }

    constructor (unis: seq<UniPort>)
      ensures this.unis == unis && state == Created
    {
      this.unis, state := unis, Created;
    }

    ghost function Services(): set<ServiceDevice> {
      set u, i | 0 <= u < |unis| && 0 <= i < |unis[u].services| :: unis[u].services[i]
    }

    ghost function View(): Onu
      reads this, unis, Services()
    {
      Onu(state, seq(|unis|, u requires 0 <= u < |unis| reads this, unis, Services() => unis[u].View()))
    }

    method DisableUni(u: nat)
      requires Valid() && u < |unis|
      modifies unis[u], unis[u].services
      ensures View() == old(View()).(unis := old(View().unis)[u := TurnedDown(old(View().unis[u]))])
    {
      unis[u].Disable();
      assert forall v :: 0 <= v < |unis| && v != u ==> unis[v].View() == old(unis[v].View());
    }

    method StartOnUni(u: nat, p: Protocol, sel: Selection) returns (blocked: bool)
      requires Valid() && u < |unis|
      modifies unis[u].services
      ensures var was := old(View().unis[u]);
        && blocked == Blocks(was.services, p, sel)
        && View() == old(View()).(unis := old(View().unis)[u := was.(services := StartAll(was.services, p, sel))])
    {
      blocked := unis[u].Start(p, sel);
      assert forall v :: 0 <= v < |unis| && v != u ==> unis[v].View() == old(unis[v].View());
    }

    // An event of the internal state machine; entering disabled takes the UNIs down.
    method FireEvent(e: OnuEvent)
      requires Valid()
      modifies this, unis, Services()
      ensures View() == Step(old(View()), Fire(e))
    {
      if !OnuAccepts(state, e) {
        return;
      }
      state := OnuTarget(e);
      if state == OnuState.Disabled {
        ghost var was := old(View().unis);
        for u := 0 to |unis|
          invariant state == OnuState.Disabled && |View().unis| == |was|
          invariant forall v :: 0 <= v < |unis| ==> View().unis[v] == if v < u then TurnedDown(was[v]) else was[v]
        {
          DisableUni(u);
        }
      }
    }

    method EnableUni(u: nat)
      requires Valid() && u < |unis|
      modifies unis[u], unis[u].services
      ensures View() == old(View()).(unis := old(View().unis)[u := TurnedUp(old(View().unis[u]))])
    {
      unis[u].Enable();
      assert forall v :: 0 <= v < |unis| && v != u ==> unis[v].View() == old(unis[v].View());
    }

    // The UNI part of an OMCI set request: 1 locks the UNI, anything else unlocks it.
    method SetUniState(u: nat, adminState: nat)
      requires Valid() && u < |unis|
      modifies unis[u], unis[u].services
      ensures View() == Step(old(View()), SetUni(u, adminState == 1))
      ensures old(state) !in {Created, OnuState.Disabled} ==> unis[u].up == (adminState != 1)
      ensures forall v :: 0 <= v < |unis| && v != u ==> View().unis[v] == old(View()).unis[v]
    {
      SetUniEffect(View(), u, adminState == 1, u);
      if state != Created && state != OnuState.Disabled {
        if adminState == 1 {
          DisableUni(u);
        } else {
          EnableUni(u);
        }
      }
    }

    // RestartEapol and RestartDhcp.
    method Restart(p: Protocol, only: Option<nat>) returns (blocked: bool)
      requires Valid()
      modifies Services()
      ensures blocked == EventBlocks(old(View()), ServiceChain.Event.Restart(p, only))
      ensures View() == Step(old(View()), ServiceChain.Event.Restart(p, only))
      ensures old(ChainOk(View())) ==> !blocked && Restarted(old(View()), View(), p, only)
    {
      ghost var was := View();
      blocked := RestartUnis(p, only);
      if ChainOk(was) {
        RestartedIs(was, p, only);
      }
    }

    method RestartUnis(p: Protocol, only: Option<nat>) returns (blocked: bool)
      requires Valid()
      modifies Services()
      ensures blocked == EventBlocks(old(View()), ServiceChain.Event.Restart(p, only))
      ensures View() == Step(old(View()), ServiceChain.Event.Restart(p, only))
    {
      ghost var was := View().unis;
      for u := 0 to |unis|
        invariant state == old(state)
        invariant !RestartBlocksBefore(was, p, only, u)
        invariant View().unis == RestartUpTo(was, p, only, u)
      {
        RestartNext(was, p, only, u);
        assert View().unis[u].up == unis[u].up;
        if only.Some? && only.value != unis[u].index {
          continue;
        }
        if !unis[u].up {
          continue;
        }
        var b := StartOnUni(u, p, if p == Eapol then OnlyInitialized else Every);
        if b {
          RestartBlockedStays(was, p, only, u + 1, |was|);
          return true;
        }
      }
      return false;
    }
  }

  // Exactly the services that need the protocol, on the chosen UNIs that are up, got their start event.
  ghost predicate Restarted(o: Onu, o': Onu, p: Protocol, only: Option<nat>) {
    && |o'.unis| == |o.unis|
    && (forall u :: 0 <= u < |o.unis| ==> o'.unis[u].up == o.unis[u].up && |o'.unis[u].services| == |o.unis[u].services|)
    && (forall u, i :: 0 <= u < |o.unis| && 0 <= i < |o.unis[u].services| ==>
          var was, now := o.unis[u].services[i], o'.unis[u].services[i];
          if o.unis[u].up && (only.Some? ==> only.value == u) && (if p == Eapol then was.needsEapol else was.needsDhcp)
          then GotStart(was, now, p) else now == was)
  }

  lemma RestartedIs(o: Onu, p: Protocol, only: Option<nat>)
    requires ChainOk(o)
    ensures !EventBlocks(o, ServiceChain.Event.Restart(p, only))
    ensures Restarted(o, Step(o, ServiceChain.Event.Restart(p, only)), p, only)
  {
    ChainNeverBlocks(o, p, only);
    var o' := Step(o, ServiceChain.Event.Restart(p, only));
    forall u | 0 <= u < |o.unis|
      ensures o'.unis[u].up == o.unis[u].up && |o'.unis[u].services| == |o.unis[u].services|
    {
      RestartUniEffect(o.unis, p, only, |o.unis|, u);
    }
    forall u, i | 0 <= u < |o.unis| && 0 <= i < |o.unis[u].services|
      ensures var was, now := o.unis[u].services[i], o'.unis[u].services[i];
        if o.unis[u].up && (only.Some? ==> only.value == u) && (if p == Eapol then was.needsEapol else was.needsDhcp)
        then GotStart(was, now, p) else now == was
    {
      RestartOnChain(o, p, only, u, i);
    }
  }

  lemma RestartNext(was: seq<Uni>, p: Protocol, only: Option<nat>, u: nat)
    requires u < |was| && !RestartBlocksBefore(was, p, only, u)
    ensures var now := RestartUpTo(was, p, only, u);
      && now[u] == was[u]
      && RestartBlocksBefore(was, p, only, u + 1) == (Chosen(was, only, u) && Blocks(was[u].services, p, Guard(p)))
      && RestartUpTo(was, p, only, u + 1) ==
         if Chosen(was, only, u) then now[u := was[u].(services := StartAll(was[u].services, p, Guard(p)))] else now
  {
    RestartLeaves(was, p, only, u, u);
  }

  lemma {:induction false} RestartLeaves(unis: seq<Uni>, p: Protocol, only: Option<nat>, n: nat, u: nat)
    requires n <= u < |unis|
    ensures RestartUpTo(unis, p, only, n)[u] == unis[u]
  {
    if n > 0 {
      RestartLeaves(unis, p, only, n - 1, u);
    }
  }

  lemma {:induction false} RestartBlockedStays(unis: seq<Uni>, p: Protocol, only: Option<nat>, m: nat, n: nat)
    requires 0 < m <= n <= |unis| && RestartBlocksBefore(unis, p, only, m)
    ensures RestartUpTo(unis, p, only, n) == RestartUpTo(unis, p, only, m)
    ensures RestartBlocksBefore(unis, p, only, n)
  {
    if m < n {
      RestartBlockedStays(unis, p, only, m, n - 1);
    }
  }
}
