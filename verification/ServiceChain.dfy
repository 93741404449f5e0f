/** An ONU, its UNIs and their services: how a state change of one reaches the others.

    Messages are handled when they are delivered. Starting EAPOL or DHCP first sends a message on the
    channel of the service and only then moves the state machine; on a nil channel that send blocks
    for ever, which is what the outcome Blocked stands for. */
module ServiceChain {
  import opened Options
  import opened StateMachines

  datatype Service = Service(state: ServiceState, eapol: EapolState, dhcp: DhcpState, channel: bool,
                             needsEapol: bool, needsDhcp: bool)

  datatype Uni = Uni(up: bool, services: seq<Service>)

  datatype Onu = Onu(state: OnuState, unis: seq<Uni>)

  // The two client protocols of a service.
  datatype Protocol = Eapol | Dhcp

  // Which services a caller means: all, all that are initialized, or those that match a flow.
  datatype Selection = Every | OnlyInitialized | Matching(positions: set<nat>)

  datatype Event =
    | Fire(event: OnuEvent)
    | SetUni(uni: nat, lock: bool) // OMCI set of the administrative state of a UNI
    | Restart(protocol: Protocol, only: Option<nat>) // RestartEapol and RestartDhcp, on one UNI or all
    | FlowStarts(protocol: Protocol, uni: nat, positions: set<nat>) // a trap flow starts EAPOL or DHCP
    | EapolProgress(uni: nat, service: nat, eapol: EapolEvent)
    | DhcpProgress(uni: nat, service: nat, dhcp: DhcpEvent)

  // ----- one service

  function Opened(s: Service): Service {
    if s.state in {ServiceCreated, ServiceDisabled} then s.(state := ServiceInitialized, channel := true) else s
  }

  function Closed(s: Service): Service {
    if s.state == ServiceInitialized
    then s.(state := ServiceDisabled, eapol := EapolCreated, dhcp := DhcpCreated, channel := false)
    else s
  }

  predicate Needs(s: Service, p: Protocol) {
    if p == Eapol then s.needsEapol else s.needsDhcp
  }

  predicate StartAccepted(s: Service, p: Protocol) {
    if p == Eapol then NextEapol(s.eapol, EapolStart).Some? else NextDhcp(s.dhcp, DhcpStart).Some?
  }

  predicate StartBlocks(s: Service, p: Protocol) {
    StartAccepted(s, p) && !s.channel
  }

  function Started(s: Service, p: Protocol): Service {
    if !StartAccepted(s, p) || !s.channel then s
    else if p == Eapol then s.(eapol := AuthStarted)
    else s.(dhcp := DhcpStarted)
  }

  // ----- the services of a UNI in order; a blocked start keeps the later ones from being reached

  predicate Wanted(services: seq<Service>, p: Protocol, sel: Selection, i: nat)
    requires i < |services|
  {
    Needs(services[i], p) &&
    match sel
    case Every => true
    case OnlyInitialized => services[i].state == ServiceInitialized
    case Matching(positions) => i in positions
  }

  // One of the first n services blocks.
  predicate BlocksBefore(services: seq<Service>, p: Protocol, sel: Selection, n: nat)
    requires n <= |services|
  {
    exists i :: 0 <= i < n && Wanted(services, p, sel, i) && StartBlocks(services[i], p)
  }

  predicate Blocks(services: seq<Service>, p: Protocol, sel: Selection) {
    BlocksBefore(services, p, sel, |services|)
  }

  function StartUpTo(services: seq<Service>, p: Protocol, sel: Selection, n: nat): (r: seq<Service>)
    requires n <= |services|
    ensures |r| == |services|
  {
    if n == 0 then services
    else
      var r := StartUpTo(services, p, sel, n - 1);
      if BlocksBefore(services, p, sel, n) || !Wanted(services, p, sel, n - 1) then r
      else r[n - 1 := Started(services[n - 1], p)]
  }

  function StartAll(services: seq<Service>, p: Protocol, sel: Selection): (r: seq<Service>)
    ensures |r| == |services|
  {
    StartUpTo(services, p, sel, |services|)
  }

  // ----- the UNIs of an ONU

  function TurnedUp(u: Uni): Uni {
    if u.up then u else Uni(true, seq(|u.services|, i requires 0 <= i < |u.services| => Opened(u.services[i])))
  }

  function TurnedDown(u: Uni): Uni {
    if !u.up then u else Uni(false, seq(|u.services|, i requires 0 <= i < |u.services| => Closed(u.services[i])))
  }

  // RestartEapol looks at the state of a service, RestartDhcp does not.
  function Guard(p: Protocol): Selection {
    if p == Eapol then OnlyInitialized else Every
  }

  // Restarting concerns UNIs that are up.
  predicate Chosen(unis: seq<Uni>, only: Option<nat>, u: nat)
    requires u < |unis|
  {
    unis[u].up && (only.Some? ==> only.value == u)
  }

  predicate RestartBlocksBefore(unis: seq<Uni>, p: Protocol, only: Option<nat>, n: nat)
    requires n <= |unis|
  {
    exists u :: 0 <= u < n && Chosen(unis, only, u) && Blocks(unis[u].services, p, Guard(p))
  }

  // The loop over the first n UNIs. A UNI that blocks is the last one reached.
  function RestartUpTo(unis: seq<Uni>, p: Protocol, only: Option<nat>, n: nat): (r: seq<Uni>)
    requires n <= |unis|
    ensures |r| == |unis|
  {
    if n == 0 then unis
    else
      var r := RestartUpTo(unis, p, only, n - 1);
      if RestartBlocksBefore(unis, p, only, n - 1) || !Chosen(unis, only, n - 1) then r
      else r[n - 1 := unis[n - 1].(services := StartAll(unis[n - 1].services, p, Guard(p)))]
  }

  // OMCI messages for a disabled ONU are dropped; before its first initialization there is no
  // channel to deliver them. Flows are refused below a disabled PON as well.
  predicate OmciDelivered(o: Onu) {
    o.state !in {Created, Disabled}
  }

  predicate FlowDelivered(o: Onu) {
    o.state !in {Created, Disabled, PonDown}
  }

  function WithUni(o: Onu, u: nat, uni: Uni): Onu
    requires u < |o.unis|
  {
    o.(unis := o.unis[u := uni])
  }

  function WithService(o: Onu, u: nat, i: nat, s: Service): Onu
    requires u < |o.unis| && i < |o.unis[u].services|
  {
    WithUni(o, u, o.unis[u].(services := o.unis[u].services[i := s]))
  }

  function Step(o: Onu, e: Event): (o': Onu)
    ensures |o'.unis| == |o.unis|
  {
    match e
    case Fire(ev) =>
      if !OnuAccepts(o.state, ev) then o
      else if ev == Disable
      then Onu(OnuState.Disabled, seq(|o.unis|, u requires 0 <= u < |o.unis| => TurnedDown(o.unis[u])))
      else o.(state := OnuTarget(ev))
    case SetUni(u, lock) =>
      if !OmciDelivered(o) || u >= |o.unis| then o
      else WithUni(o, u, if lock then TurnedDown(o.unis[u]) else TurnedUp(o.unis[u]))
    case Restart(p, only) => o.(unis := RestartUpTo(o.unis, p, only, |o.unis|))
    case FlowStarts(p, u, positions) =>
      if !FlowDelivered(o) || u >= |o.unis| then o
      else WithUni(o, u, o.unis[u].(services := StartAll(o.unis[u].services, p, Matching(positions))))
    case EapolProgress(u, i, ev) =>
      if u >= |o.unis| || i >= |o.unis[u].services| || ev == EapolStart then o
      else
        var s := o.unis[u].services[i];
        var next := NextEapol(s.eapol, ev);
        if next.None? then o else WithService(o, u, i, s.(eapol := next.value))
    case DhcpProgress(u, i, ev) =>
      if u >= |o.unis| || i >= |o.unis[u].services| || ev == DhcpStart then o
      else
        var s := o.unis[u].services[i];
        var next := NextDhcp(s.dhcp, ev);
        if next.None? then o else WithService(o, u, i, s.(dhcp := next.value))
  }

  function Run(o: Onu, events: seq<Event>): (o': Onu)
    ensures |o'.unis| == |o.unis|
  {
    if events == [] then o else Step(Run(o, events[..|events|-1]), events[|events|-1])
  }

  // The event ends up sending on a nil channel.
  predicate EventBlocks(o: Onu, e: Event) {
    match e
    case Restart(p, only) => RestartBlocksBefore(o.unis, p, only, |o.unis|)
    case FlowStarts(p, u, positions) =>
      FlowDelivered(o) && u < |o.unis| && Blocks(o.unis[u].services, p, Matching(positions))
    case _ => false
  }

  // ----- the chain

  // A service is initialized and has a channel exactly while its UNI is up, and rests otherwise.
  predicate ServiceFollows(s: Service, up: bool) {
    && (s.state == ServiceInitialized <==> up)
    && (s.channel <==> up)
    && (!up ==> s.eapol == EapolCreated && s.dhcp == DhcpCreated)
  }

  ghost predicate UniOk(u: Uni) {
    forall i :: 0 <= i < |u.services| ==> ServiceFollows(u.services[i], u.up)
  }

  ghost predicate ChainOk(o: Onu) {
    forall u :: 0 <= u < |o.unis| ==>
      UniOk(o.unis[u]) && (o.state in {Created, Disabled} ==> !o.unis[u].up)
  }

  // An ONU as CreateONU leaves it.
  ghost predicate Fresh(o: Onu) {
    && o.state == Created
    && (forall u :: 0 <= u < |o.unis| ==> !o.unis[u].up && FreshServices(o.unis[u]))
  }

  ghost predicate FreshServices(u: Uni) {
    forall i :: 0 <= i < |u.services| ==>
      var s := u.services[i];
      s.state == ServiceCreated && s.eapol == EapolCreated && s.dhcp == DhcpCreated && !s.channel
  }

  lemma {:induction false} StartKeepsUni(u: Uni, p: Protocol, sel: Selection, n: nat)
    requires UniOk(u) && n <= |u.services|
    ensures UniOk(u.(services := StartUpTo(u.services, p, sel, n)))
  {
    if n > 0 {
      StartKeepsUni(u, p, sel, n - 1);
    }
  }

  lemma {:induction false} RestartKeepsUnis(unis: seq<Uni>, p: Protocol, only: Option<nat>, n: nat)
    requires n <= |unis| && forall u :: 0 <= u < |unis| ==> UniOk(unis[u])
    ensures forall u :: 0 <= u < |unis| ==>
      UniOk(RestartUpTo(unis, p, only, n)[u]) && RestartUpTo(unis, p, only, n)[u].up == unis[u].up
  {
    if n > 0 {
      RestartKeepsUnis(unis, p, only, n - 1);
      StartKeepsUni(unis[n - 1], p, Guard(p), |unis[n - 1].services|);
    }
  }

  lemma TurningKeepsUni(u: Uni)
    requires UniOk(u)
    ensures UniOk(TurnedUp(u)) && UniOk(TurnedDown(u))
    ensures TurnedUp(u).up && !TurnedDown(u).up
  {
  }

  lemma StepKeepsChain(o: Onu, e: Event)
    requires ChainOk(o)
    ensures ChainOk(Step(o, e))
  {
    forall u | 0 <= u < |o.unis|
      ensures UniOk(TurnedUp(o.unis[u])) && UniOk(TurnedDown(o.unis[u]))
    {
      TurningKeepsUni(o.unis[u]);
    }
    match e
    case Restart(p, only) => RestartKeepsUnis(o.unis, p, only, |o.unis|);
    case FlowStarts(p, u, positions) =>
      if u < |o.unis| {
        StartKeepsUni(o.unis[u], p, Matching(positions), |o.unis[u].services|);
      }
    case _ =>
  }

  // In every run: a disabled ONU has all its UNIs down; each service of a UNI that is up is initialized
  // and has a channel; each service of a UNI that is down is not initialized, has no channel, and is at
  // the start of EAPOL and of DHCP.
  lemma {:induction false} ChainInvariant(o: Onu, events: seq<Event>)
    requires Fresh(o)
    ensures ChainOk(Run(o, events))
  {
    if events != [] {
      ChainInvariant(o, events[..|events|-1]);
      StepKeepsChain(Run(o, events[..|events|-1]), events[|events|-1]);
    }
  }

  // Looking at the UNI alone is enough: no restart ever sends on a nil channel, although only
  // RestartEapol looks at the service as well.
  lemma RestartNeverBlocks(o: Onu, events: seq<Event>, p: Protocol, only: Option<nat>)
    requires Fresh(o)
    ensures !EventBlocks(Run(o, events), Restart(p, only))
  {
    ChainInvariant(o, events);
    var o' := Run(o, events);
    forall u | 0 <= u < |o'.unis| && Chosen(o'.unis, only, u)
      ensures !Blocks(o'.unis[u].services, p, Guard(p))
    {
      assert UniOk(o'.unis[u]);
    }
  }

  // A trap flow, whose handler looks at neither, blocks exactly when the UNI is down and one of its
  // services wants the protocol.
  lemma FlowBlocksWhenUniDown(o: Onu, events: seq<Event>, p: Protocol, u: nat, positions: set<nat>)
    requires Fresh(o) && u < |o.unis| && FlowDelivered(Run(o, events))
    ensures var uni := Run(o, events).unis[u];
      EventBlocks(Run(o, events), FlowStarts(p, u, positions)) <==>
      !uni.up && exists i :: 0 <= i < |uni.services| && Wanted(uni.services, p, Matching(positions), i)
  {
    ChainInvariant(o, events);
    var uni := Run(o, events).unis[u];
    assert UniOk(uni);
  }

  // And it can: an ONU is initialized, discovered and enabled, its one UNI was never unlocked, and a
  // trap flow starts EAPOL for the service behind it.
  lemma TrapFlowBlocks(o: Onu)
    requires Fresh(o) && |o.unis| == 1 && |o.unis[0].services| == 1 && o.unis[0].services[0].needsEapol
    ensures EventBlocks(Run(o, [Fire(Initialize), Fire(Discover), Fire(Enable)]), FlowStarts(Eapol, 0, {0}))
  {
    var e1, e2, e3 := Fire(Initialize), Fire(Discover), Fire(Enable);
    RunOneMore(o, [], e1);
    RunOneMore(o, [] + [e1], e2);
    RunOneMore(o, [] + [e1] + [e2], e3);
    assert [] + [e1] + [e2] + [e3] == [e1, e2, e3];
    assert Run(o, [e1, e2, e3]) == o.(state := Enabled);
    FlowBlocksWhenUniDown(o, [e1, e2, e3], Eapol, 0, {0});
    assert Wanted(o.unis[0].services, Eapol, Matching({0}), 0);
  }

  // What a restart comes to: each wanted service of the chosen UNIs gets its start event.
  lemma {:induction false} StartEffect(services: seq<Service>, p: Protocol, sel: Selection, n: nat, i: nat)
    requires n <= |services| && i < |services| && !Blocks(services, p, sel)
    ensures StartUpTo(services, p, sel, n)[i] ==
            if i < n && Wanted(services, p, sel, i) then Started(services[i], p) else services[i]
  {
    if n > 0 {
      StartEffect(services, p, sel, n - 1, i);
    }
  }

  lemma {:induction false} RestartUniEffect(unis: seq<Uni>, p: Protocol, only: Option<nat>, n: nat, u: nat)
    requires n <= |unis| && u < |unis| && !RestartBlocksBefore(unis, p, only, |unis|)
    ensures RestartUpTo(unis, p, only, n)[u] ==
            if u < n && Chosen(unis, only, u) then unis[u].(services := StartAll(unis[u].services, p, Guard(p))) else unis[u]
  {
    if n > 0 {
      RestartUniEffect(unis, p, only, n - 1, u);
    }
  }

  // The states a start event is accepted in.
  predicate AtRest(s: Service, p: Protocol) {
    if p == Eapol then s.eapol in {EapolCreated, SuccessReceived, AuthFailed}
    else s.dhcp in {DhcpCreated, AckReceived, DhcpFailed}
  }

  // The service got the start event of the protocol, and nothing else.
  predicate GotStart(before: Service, after: Service, p: Protocol) {
    && after.state == before.state && after.channel == before.channel
    && after.needsEapol == before.needsEapol && after.needsDhcp == before.needsDhcp
    && after.eapol == (if p == Eapol && AtRest(before, p) then AuthStarted else before.eapol)
    && after.dhcp == (if p == Dhcp && AtRest(before, p) then DhcpStarted else before.dhcp)
  }

  lemma StartedIs(s: Service, p: Protocol)
    requires !StartBlocks(s, p)
    ensures GotStart(s, Started(s, p), p)
  {
  }

  // A restart in a state of the chain: every service that needs the protocol, on the chosen UNIs that
  // are up, gets its start event; nothing else changes, and nothing blocks.
  lemma RestartOnChain(o: Onu, p: Protocol, only: Option<nat>, u: nat, i: nat)
    requires ChainOk(o) && u < |o.unis| && i < |o.unis[u].services|
    ensures !EventBlocks(o, Restart(p, only))
    ensures var before, after := o.unis[u], Step(o, Restart(p, only)).unis[u];
      && after.up == before.up && |after.services| == |before.services|
      && var needs := if p == Eapol then before.services[i].needsEapol else before.services[i].needsDhcp;
      if before.up && (only.Some? ==> only.value == u) && needs
      then GotStart(before.services[i], after.services[i], p)
      else after.services[i] == before.services[i]
  {
    ChainNeverBlocks(o, p, only);
    RestartUniEffect(o.unis, p, only, |o.unis|, u);
    assert UniOk(o.unis[u]);
    if o.unis[u].up {
      StartEffect(o.unis[u].services, p, Guard(p), |o.unis[u].services|, i);
      StartedIs(o.unis[u].services[i], p);
    }
  }

  lemma ChainNeverBlocks(o: Onu, p: Protocol, only: Option<nat>)
    requires ChainOk(o)
    ensures !EventBlocks(o, Restart(p, only))
  {
    forall u | 0 <= u < |o.unis| && Chosen(o.unis, only, u)
      ensures !Blocks(o.unis[u].services, p, Guard(p))
    {
      assert UniOk(o.unis[u]);
    }
  }

  // A trap flow that does not block gives its start event to the services of the UNI that need the
  // protocol and match the flow, and changes nothing else.
  lemma FlowStartEffect(o: Onu, p: Protocol, u: nat, positions: set<nat>, v: nat, i: nat)
    requires o.state !in {Created, Disabled, PonDown} && u < |o.unis|
    requires !EventBlocks(o, FlowStarts(p, u, positions))
    requires v < |o.unis| && i < |o.unis[v].services|
    ensures var before, after := o.unis[v], Step(o, FlowStarts(p, u, positions)).unis[v];
      && after.up == before.up && |after.services| == |before.services|
      && var needs := if p == Eapol then before.services[i].needsEapol else before.services[i].needsDhcp;
      if v == u && needs && i in positions
      then GotStart(before.services[i], after.services[i], p)
      else after.services[i] == before.services[i]
  {
    if v == u {
      var services := o.unis[u].services;
      StartEffect(services, p, Matching(positions), |services|, i);
      if Wanted(services, p, Matching(positions), i) {
        StartedIs(services[i], p);
      }
    }
  }

  // Below a disabled PON, and for an ONU that is new or disabled, a trap flow starts nothing.
  lemma FlowForDownOnu(o: Onu, p: Protocol, u: nat, positions: set<nat>)
    requires o.state in {Created, Disabled, PonDown}
    ensures Step(o, FlowStarts(p, u, positions)) == o && !EventBlocks(o, FlowStarts(p, u, positions))
  {
  }

  // Locking a UNI takes it down and unlocking brings it up; the other UNIs and the ONU stay as they
  // are. An ONU that is new or disabled takes no request.
  lemma SetUniEffect(o: Onu, u: nat, lock: bool, v: nat)
    requires u < |o.unis| && v < |o.unis|
    ensures var o' := Step(o, SetUni(u, lock));
      && o'.state == o.state
      && (o.state in {Created, Disabled} ==> o' == o)
      && (o.state !in {Created, Disabled} ==> o'.unis[u].up == !lock)
      && (v != u ==> o'.unis[v] == o.unis[v])
      && (o.unis[u].up == !lock ==> o' == o)
  {
    assert o.unis[u := o.unis[u]] == o.unis;
  }

  // What a lock and an unlock do to a service: the channel goes and comes, and a locked UNI leaves
  // both protocols at their start.
  lemma SetUniServices(o: Onu, u: nat, lock: bool, i: nat)
    requires ChainOk(o) && o.state !in {Created, Disabled} && u < |o.unis| && i < |o.unis[u].services|
    ensures var before := o.unis[u].services[i];
      var uni := Step(o, SetUni(u, lock)).unis[u];
      && |uni.services| == |o.unis[u].services|
      && var after := uni.services[i];
      && after.channel == !lock && (after.state == ServiceInitialized <==> !lock)
      && after.eapol == (if lock then EapolCreated else before.eapol)
      && after.dhcp == (if lock then DhcpCreated else before.dhcp)
      && after.needsEapol == before.needsEapol && after.needsDhcp == before.needsDhcp
  {
    assert UniOk(o.unis[u]);
  }

  // A state event moves the ONU. Being disabled takes every UNI down; nothing else touches them.
  lemma FireEffect(o: Onu, e: OnuEvent, u: nat)
    requires u < |o.unis|
    ensures var o' := Step(o, Fire(e));
      && o'.state == AfterOnuEvent(o.state, e)
      && (OnuAccepts(o.state, Disable) && e == Disable ==> !o'.unis[u].up && |o'.unis[u].services| == |o.unis[u].services|)
      && (!(OnuAccepts(o.state, Disable) && e == Disable) ==> o'.unis == o.unis)
  {
  }

  lemma RunOneMore(o: Onu, events: seq<Event>, e: Event)
    ensures Run(o, events + [e]) == Step(Run(o, events), e)
  {
    assert (events + [e])[..|events|] == events;
  }

  lemma EapolOnce(o: Onu, u: nat, i: nat, e: EapolEvent)
    requires u < |o.unis| && i < |o.unis[u].services| && e != EapolStart
    requires NextEapol(o.unis[u].services[i].eapol, e).Some?
    ensures Step(o, EapolProgress(u, i, e)) ==
            WithService(o, u, i, o.unis[u].services[i].(eapol := NextEapol(o.unis[u].services[i].eapol, e).value))
  {
  }

  lemma DhcpOnce(o: Onu, u: nat, i: nat, e: DhcpEvent)
    requires u < |o.unis| && i < |o.unis[u].services| && e != DhcpStart
    requires NextDhcp(o.unis[u].services[i].dhcp, e).Some?
    ensures Step(o, DhcpProgress(u, i, e)) ==
            WithService(o, u, i, o.unis[u].services[i].(dhcp := NextDhcp(o.unis[u].services[i].dhcp, e).value))
  {
  }

  // A service of the ONU, seen from the ONU it was a part of at first, went on by one message.
  lemma EapolStep(o: Onu, u: nat, i: nat, events: seq<Event>, from: EapolState, e: EapolEvent, next: EapolState)
    requires u < |o.unis| && i < |o.unis[u].services|
    requires Run(o, events) == WithService(o, u, i, o.unis[u].services[i].(eapol := from))
    requires e != EapolStart && NextEapol(from, e) == Some(next)
    ensures Run(o, events + [EapolProgress(u, i, e)]) == WithService(o, u, i, o.unis[u].services[i].(eapol := next))
  {
    var s := o.unis[u].services[i];
    RunOneMore(o, events, EapolProgress(u, i, e));
    WriteOver(o, u, i, s.(eapol := from), s.(eapol := next));
    EapolOnce(WithService(o, u, i, s.(eapol := from)), u, i, e);
  }

  lemma DhcpStep(o: Onu, u: nat, i: nat, events: seq<Event>, from: DhcpState, e: DhcpEvent, next: DhcpState)
    requires u < |o.unis| && i < |o.unis[u].services|
    requires Run(o, events) == WithService(o, u, i, o.unis[u].services[i].(dhcp := from))
    requires e != DhcpStart && NextDhcp(from, e) == Some(next)
    ensures Run(o, events + [DhcpProgress(u, i, e)]) == WithService(o, u, i, o.unis[u].services[i].(dhcp := next))
  {
    var s := o.unis[u].services[i];
    RunOneMore(o, events, DhcpProgress(u, i, e));
    WriteOver(o, u, i, s.(dhcp := from), s.(dhcp := next));
    DhcpOnce(WithService(o, u, i, s.(dhcp := from)), u, i, e);
  }

  // An authentication that was started succeeds with the four messages of its exchange in order.
  lemma AuthenticationSucceeds(o: Onu, u: nat, i: nat)
    requires u < |o.unis| && i < |o.unis[u].services| && o.unis[u].services[i].eapol == AuthStarted
    ensures var events := [] + [EapolProgress(u, i, SendStart)] + [EapolProgress(u, i, SendIdentity)]
                             + [EapolProgress(u, i, SendChallenge)] + [EapolProgress(u, i, ReceiveSuccess)];
      Run(o, events) == WithService(o, u, i, o.unis[u].services[i].(eapol := SuccessReceived))
  {
    var e1, e2, e3 := EapolProgress(u, i, SendStart), EapolProgress(u, i, SendIdentity), EapolProgress(u, i, SendChallenge);
    SameService(o, u, i);
    EapolStep(o, u, i, [], AuthStarted, SendStart, StartSent);
    EapolStep(o, u, i, [] + [e1], StartSent, SendIdentity, IdentitySent);
    EapolStep(o, u, i, [] + [e1] + [e2], IdentitySent, SendChallenge, ChallengeSent);
    EapolStep(o, u, i, [] + [e1] + [e2] + [e3], ChallengeSent, ReceiveSuccess, SuccessReceived);
  }

  // A DHCP exchange that was started succeeds with discovery, request and acknowledgement.
  lemma AddressAcquired(o: Onu, u: nat, i: nat)
    requires u < |o.unis| && i < |o.unis[u].services| && o.unis[u].services[i].dhcp == DhcpStarted
    ensures var events := [] + [DhcpProgress(u, i, SendDiscovery)] + [DhcpProgress(u, i, SendRequest)] + [DhcpProgress(u, i, ReceiveAck)];
      Run(o, events) == WithService(o, u, i, o.unis[u].services[i].(dhcp := AckReceived))
  {
    var e1, e2 := DhcpProgress(u, i, SendDiscovery), DhcpProgress(u, i, SendRequest);
    SameService(o, u, i);
    DhcpStep(o, u, i, [], DhcpStarted, SendDiscovery, DiscoverySent);
    DhcpStep(o, u, i, [] + [e1], DiscoverySent, SendRequest, RequestSent);
    DhcpStep(o, u, i, [] + [e1] + [e2], RequestSent, ReceiveAck, AckReceived);
  }

  lemma SameService(o: Onu, u: nat, i: nat)
    requires u < |o.unis| && i < |o.unis[u].services|
    ensures WithService(o, u, i, o.unis[u].services[i]) == o
  {
    assert o.unis[u].services[i := o.unis[u].services[i]] == o.unis[u].services;
    assert o.unis[u := o.unis[u]] == o.unis;
  }

  lemma WriteOver(o: Onu, u: nat, i: nat, s: Service, s': Service)
    requires u < |o.unis| && i < |o.unis[u].services|
    ensures WithService(WithService(o, u, i, s), u, i, s') == WithService(o, u, i, s')
  {
    assert o.unis[u].services[i := s][i := s'] == o.unis[u].services[i := s'];
  }

  // In every run, the same of any restart.
  lemma RestartEffect(o: Onu, events: seq<Event>, p: Protocol, only: Option<nat>, u: nat, i: nat)
    requires Fresh(o) && u < |o.unis|
    requires var uni := Run(o, events).unis[u]; i < |uni.services|
    ensures var before := Run(o, events).unis[u];
      var after := Step(Run(o, events), Restart(p, only)).unis[u];
      && after.up == before.up && |after.services| == |before.services|
      && var needs := if p == Eapol then before.services[i].needsEapol else before.services[i].needsDhcp;
      if before.up && (only.Some? ==> only.value == u) && needs
      then GotStart(before.services[i], after.services[i], p)
      else after.services[i] == before.services[i]
  {
    ChainInvariant(o, events);
    RestartOnChain(Run(o, events), p, only, u, i);
  }
}
