/** The message channels of the ONUs: when they are created and when they are closed.

    Every initialization makes a new channel. Disabling an ONU closes its channel if the ONU has no
    flows left; otherwise removing the last flow closes it. Closing a channel twice panics in Go, so
    the model remembers every channel instance that was closed. Messages are handled on delivery. */
module OnuChannels {
  import opened MachineIntegers
  import opened Options
  import opened StateMachines
  import opened FlowLists

  // The channel is the number of the instance, in order of creation; FlowIds may hold duplicates.
  datatype Onu = Onu(state: OnuState, channel: Option<nat>, flowIds: seq<uint64>)

  // All ONUs of the OLT, PON after PON.
  datatype Net = Net(onus: seq<Onu>, created: nat, closed: set<nat>, closedTwice: bool)

  datatype Event =
    | Fire(onu: nat, event: OnuEvent)
    | FlowAdd(onu: nat, flow: uint64)
    | FlowRemove(flow: uint64)

  function Close(n: Net, ch: nat): Net {
    n.(closed := n.closed + {ch}, closedTwice := n.closedTwice || ch in n.closed)
  }

  function WithOnu(n: Net, k: nat, o: Onu): Net
    requires k < |n.onus|
  {
    n.(onus := n.onus[k := o])
  }

  // A close of the channel the ONU has now. Closing a nil channel panics like closing twice.
  function CloseOf(n: Net, k: nat): Net
    requires k < |n.onus|
  {
    match n.onus[k].channel
    case None => n.(closedTwice := true)
    case Some(ch) => Close(n, ch)
  }

  function FireAt(n: Net, k: nat, e: OnuEvent): Net
    requires k < |n.onus|
  {
    var o := n.onus[k];
    if !OnuAccepts(o.state, e) then n
    else
      var moved := WithOnu(n, k, o.(state := OnuTarget(e)));
      if e == Initialize then WithOnu(moved, k, moved.onus[k].(channel := Some(n.created))).(created := n.created + 1)
      else if e == Disable && o.flowIds == [] then CloseOf(moved, k)
      else moved
  }

  // The flow is refused for a disabled ONU and below a disabled PON, and never delivered to an ONU
  // that has no channel yet.
  predicate TakesFlow(o: Onu) {
    o.state !in {PonDown, Disabled} && o.channel.Some?
  }

  // The first ONU, in PON order, that has the flow.
  function Holder(onus: seq<Onu>, flow: uint64): Option<nat> {
    if onus == [] then None
    else if flow in onus[0].flowIds then Some(0)
    else
      var r := Holder(onus[1..], flow);
      if r.None? then None else Some(r.value + 1)
  }

  function RemoveAt(n: Net, k: nat, flow: uint64): Net
    requires k < |n.onus|
  {
    var left := Without(n.onus[k].flowIds, flow);
    var n' := WithOnu(n, k, n.onus[k].(flowIds := left));
    if left == [] && n.onus[k].state == Disabled then CloseOf(n', k) else n'
  }

  function Step(n: Net, e: Event): Net {
    match e
    case Fire(k, ev) => if k < |n.onus| then FireAt(n, k, ev) else n
    case FlowAdd(k, flow) =>
      if k < |n.onus| && TakesFlow(n.onus[k])
      then WithOnu(n, k, n.onus[k].(flowIds := n.onus[k].flowIds + [flow]))
      else n
    case FlowRemove(flow) =>
      var k := Holder(n.onus, flow);
      if k.Some? && k.value < |n.onus| then RemoveAt(n, k.value, flow) else n
  }

  function Boot(onus: nat): Net {
    Net(seq(onus, k requires 0 <= k < onus => Onu(Created, None, [])), 0, {}, false)
  }

  function Run(n: Net, events: seq<Event>): Net {
    if events == [] then n else Step(Run(n, events[..|events|-1]), events[|events|-1])
  }

  // ----- finding the holder of a flow

  lemma {:induction false} HolderFound(onus: seq<Onu>, flow: uint64)
    ensures var r := Holder(onus, flow);
      && (r.Some? ==> r.value < |onus| && flow in onus[r.value].flowIds)
      && (r.Some? ==> forall j :: 0 <= j < r.value ==> flow !in onus[j].flowIds)
      && (r.None? ==> forall j :: 0 <= j < |onus| ==> flow !in onus[j].flowIds)
  {
    if onus != [] && flow !in onus[0].flowIds {
      HolderFound(onus[1..], flow);
    }
  }

  // ----- the channels

  ghost predicate OnuOk(n: Net, k: nat)
    requires k < |n.onus|
  {
    var o := n.onus[k];
    match o.channel
    case None => o.state == Created && o.flowIds == []
    case Some(ch) =>
      o.state != Created && ch < n.created && (ch in n.closed <==> o.state == Disabled && o.flowIds == [])
  }

  ghost predicate ChannelsOk(n: Net) {
    && (forall k :: 0 <= k < |n.onus| ==> OnuOk(n, k))
    && (forall j, k :: 0 <= j < k < |n.onus| && n.onus[j].channel.Some? ==> n.onus[j].channel != n.onus[k].channel)
    && (forall ch :: ch in n.closed ==> ch < n.created)
    && !n.closedTwice
  }

  lemma FireKeepsChannels(n: Net, k: nat, e: OnuEvent)
    requires ChannelsOk(n) && k < |n.onus|
    ensures ChannelsOk(FireAt(n, k, e))
  {
    var n' := FireAt(n, k, e);
    assert OnuOk(n, k);
    forall j | 0 <= j < |n.onus|
      ensures OnuOk(n', j)
      ensures n'.onus[j].channel == if j == k && e == Initialize && OnuAccepts(n.onus[k].state, e)
                                    then Some(n.created) else n.onus[j].channel
      ensures n.onus[j].channel != Some(n.created)
    {
      assert OnuOk(n, j);
    }
  }

  lemma RemoveKeepsChannels(n: Net, k: nat, flow: uint64)
    requires ChannelsOk(n) && k < |n.onus| && flow in n.onus[k].flowIds
    ensures ChannelsOk(RemoveAt(n, k, flow))
  {
    var n' := RemoveAt(n, k, flow);
    assert OnuOk(n, k);
    forall j | 0 <= j < |n.onus|
      ensures OnuOk(n', j)
    {
      assert OnuOk(n, j);
    }
  }

  lemma StepKeepsChannels(n: Net, e: Event)
    requires ChannelsOk(n)
    ensures ChannelsOk(Step(n, e))
  {
    match e
    case Fire(k, ev) =>
      if k < |n.onus| {
        FireKeepsChannels(n, k, ev);
      }
    case FlowAdd(k, flow) =>
      if k < |n.onus| {
        assert OnuOk(n, k);
        var n' := Step(n, e);
        forall j | 0 <= j < |n.onus|
          ensures OnuOk(n', j)
        {
          assert OnuOk(n, j);
        }
      }
    case FlowRemove(flow) =>
      HolderFound(n.onus, flow);
      var k := Holder(n.onus, flow);
      if k.Some? {
        RemoveKeepsChannels(n, k.value, flow);
      }
  }

  lemma {:induction false} ChannelsInvariant(onus: nat, events: seq<Event>)
    ensures ChannelsOk(Run(Boot(onus), events))
  {
    if events != [] {
      ChannelsInvariant(onus, events[..|events|-1]);
      StepKeepsChannels(Run(Boot(onus), events[..|events|-1]), events[|events|-1]);
    }
  }

  // In every run no channel is closed twice; the channel of a disabled ONU is closed exactly when
  // the ONU has no flows, and in every other state after the first initialization it is open.
  lemma ChannelClosing(onus: nat, events: seq<Event>, k: nat)
    requires k < |Run(Boot(onus), events).onus|
    ensures var n := Run(Boot(onus), events);
      var o := n.onus[k];
      && !n.closedTwice
      && (o.channel.Some? <==> o.state != Created)
      && (o.channel.Some? ==> (o.channel.value in n.closed <==> o.state == Disabled && o.flowIds == []))
  {
    ChannelsInvariant(onus, events);
    assert OnuOk(Run(Boot(onus), events), k);
  }

  // ----- what the events do to the flow lists

  // ONU k is the first one that has the flow.
  predicate IsHolder(n: Net, flow: uint64, k: nat) {
    k < |n.onus| && flow in n.onus[k].flowIds && forall j :: 0 <= j < k ==> flow !in n.onus[j].flowIds
  }

  // And position i is the first of its list where the flow is.
  predicate IsFirst(n: Net, flow: uint64, k: nat, i: nat) {
    && IsHolder(n, flow, k)
    && i < |n.onus[k].flowIds| && n.onus[k].flowIds[i] == flow && flow !in n.onus[k].flowIds[..i]
  }

  ghost predicate SameButFlows(n: Net, n': Net, k: nat) {
    && |n'.onus| == |n.onus| && n'.created == n.created
    && (forall j :: 0 <= j < |n.onus| && j != k ==> n'.onus[j] == n.onus[j])
    && (k < |n.onus| ==> n'.onus[k].state == n.onus[k].state && n'.onus[k].channel == n.onus[k].channel)
  }

  // Removing a flow takes its first occurrence from the first ONU that has it and keeps the order of
  // the rest; the channel of that ONU is closed if it is disabled and this was its last flow.
  lemma RemoveEffect(n: Net, flow: uint64, k: nat, i: nat)
    requires IsFirst(n, flow, k, i)
    ensures var n' := Step(n, FlowRemove(flow));
      && SameButFlows(n, n', k)
      && n'.onus[k].flowIds == n.onus[k].flowIds[..i] + n.onus[k].flowIds[i+1..]
      && n'.closed == (if |n.onus[k].flowIds| == 1 && n.onus[k].state == Disabled && n.onus[k].channel.Some?
                       then n.closed + {n.onus[k].channel.value} else n.closed)
  {
    HolderFound(n.onus, flow);
    WithoutFirst(n.onus[k].flowIds, flow, i);
  }

  // It changes nothing exactly when no ONU has the flow.
  lemma RemoveNothing(n: Net, flow: uint64)
    ensures Step(n, FlowRemove(flow)) == n <==> forall k :: 0 <= k < |n.onus| ==> flow !in n.onus[k].flowIds
  {
    HolderFound(n.onus, flow);
    var r := Holder(n.onus, flow);
    if r.Some? {
      var k, flows := r.value, n.onus[r.value].flowIds;
      var i := FirstIndex(flows, flow);
      RemoveEffect(n, flow, k, i);
      assert |Step(n, FlowRemove(flow)).onus[k].flowIds| == |flows| - 1;
    }
  }

  function FirstIndex(flows: seq<uint64>, flow: uint64): (i: nat)
    requires flow in flows
    ensures i < |flows| && flows[i] == flow && flow !in flows[..i]
  {
    if flows[0] == flow then 0
    else
      var i := FirstIndex(flows[1..], flow) + 1;
      assert flows[..i] == [flows[0]] + flows[1..][..i-1];
      i
  }

  // Adding appends the flow once to an ONU that is initialized and neither disabled nor below a
  // disabled PON; for any other it changes nothing.
  lemma AddEffect(n: Net, k: nat, flow: uint64)
    requires k < |n.onus| && ChannelsOk(n)
    ensures var n' := Step(n, FlowAdd(k, flow));
      && SameButFlows(n, n', k) && n'.closed == n.closed
      && n'.onus[k].flowIds == n.onus[k].flowIds +
         (if n.onus[k].state !in {Created, Disabled, PonDown} then [flow] else [])
  {
    assert OnuOk(n, k);
  }

  // A state event moves the ONU and leaves its flows alone. An initialization makes a channel that was
  // never there before, a shutdown without flows closes the one there is.
  lemma FireEffect(n: Net, k: nat, e: OnuEvent, j: nat)
    requires k < |n.onus| && j < |n.onus| && ChannelsOk(n)
    ensures var n' := Step(n, Fire(k, e));
      var accepted := OnuAccepts(n.onus[k].state, e);
      && |n'.onus| == |n.onus| && n'.onus[j].flowIds == n.onus[j].flowIds
      && n'.onus[j].state == (if j == k && accepted then OnuTarget(e) else n.onus[j].state)
      && n'.onus[j].channel == (if j == k && accepted && e == Initialize then Some(n.created) else n.onus[j].channel)
      && n'.created == n.created + (if accepted && e == Initialize then 1 else 0)
      && (accepted && e == Disable && n.onus[k].flowIds == [] ==>
            n.onus[k].channel.Some? && n'.closed == n.closed + {n.onus[k].channel.value})
      && (!(accepted && e == Disable && n.onus[k].flowIds == []) ==> n'.closed == n.closed)
  {
    assert OnuOk(n, k);
  }

  // ----- the flow lists as their history

  function Count(flows: seq<uint64>, flow: uint64): nat {
    multiset(flows)[flow]
  }

  ghost predicate AddsTo(n: Net, e: Event, k: nat, flow: uint64) {
    k < |n.onus| && e == FlowAdd(k, flow) && n.onus[k].state !in {Created, Disabled, PonDown}
  }

  ghost predicate TakesFrom(n: Net, e: Event, k: nat, flow: uint64) {
    e == FlowRemove(flow) && IsHolder(n, flow, k)
  }

  lemma OneLess(flows: seq<uint64>, x: uint64, i: nat, flow: uint64)
    requires i < |flows| && flows[i] == x
    ensures Count(flows[..i] + flows[i+1..], flow) + (if flow == x then 1 else 0) == Count(flows, flow)
  {
    assert flows == flows[..i] + [x] + flows[i+1..];
  }

  lemma RemoveCount(n: Net, x: uint64, k: nat, flow: uint64)
    requires k < |n.onus|
    ensures var n' := Step(n, FlowRemove(x));
      && |n'.onus| == |n.onus|
      && Count(n'.onus[k].flowIds, flow) + (if x == flow && IsHolder(n, x, k) then 1 else 0) == Count(n.onus[k].flowIds, flow)
  {
    HolderFound(n.onus, x);
    var r := Holder(n.onus, x);
    if r.Some? {
      var flows := n.onus[r.value].flowIds;
      var i := FirstIndex(flows, x);
      RemoveEffect(n, x, r.value, i);
      OneLess(flows, x, i, flow);
      assert IsHolder(n, x, k) <==> k == r.value;
    }
  }

  lemma StepCount(n: Net, e: Event, k: nat, flow: uint64)
    requires ChannelsOk(n) && k < |n.onus|
    ensures |Step(n, e).onus| == |n.onus|
    ensures Count(Step(n, e).onus[k].flowIds, flow) + (if TakesFrom(n, e, k, flow) then 1 else 0) ==
            Count(n.onus[k].flowIds, flow) + (if AddsTo(n, e, k, flow) then 1 else 0)
  {
    match e
    case Fire(j, ev) =>
      if j < |n.onus| {
        FireEffect(n, j, ev, k);
      }
    case FlowAdd(j, x) =>
      if j < |n.onus| {
        AddEffect(n, j, x);
      }
    case FlowRemove(x) => RemoveCount(n, x, k, flow);
  }

  // How often the flow was added to ONU k in the run, and how often a removal took it from there.
  ghost function AddsIn(onus: nat, events: seq<Event>, k: nat, flow: uint64): nat {
    if events == [] then 0
    else
      var m := |events| - 1;
      AddsIn(onus, events[..m], k, flow) + if AddsTo(Run(Boot(onus), events[..m]), events[m], k, flow) then 1 else 0
  }

  ghost function RemovesIn(onus: nat, events: seq<Event>, k: nat, flow: uint64): nat {
    if events == [] then 0
    else
      var m := |events| - 1;
      RemovesIn(onus, events[..m], k, flow) + if TakesFrom(Run(Boot(onus), events[..m]), events[m], k, flow) then 1 else 0
  }

  // In every run an ONU has a flow as often as it was added to it, less the removals that reached it.
  lemma {:induction false} FlowsAreTheirHistory(onus: nat, events: seq<Event>, k: nat, flow: uint64)
    requires k < onus
    ensures |Run(Boot(onus), events).onus| == onus
    ensures Count(Run(Boot(onus), events).onus[k].flowIds, flow) + RemovesIn(onus, events, k, flow) ==
            AddsIn(onus, events, k, flow)
  {
    if events != [] {
      var m := |events| - 1;
      FlowsAreTheirHistory(onus, events[..m], k, flow);
      ChannelsInvariant(onus, events[..m]);
      StepCount(Run(Boot(onus), events[..m]), events[m], k, flow);
    }
  }

  // ----- the device

  class FlowRouter {
    var onus: seq<Onu>
    var created: nat
    var closed: set<nat>
    var closedTwice: bool

    ghost function View(): Net
      reads this
    {
      Net(onus, created, closed, closedTwice)
    }

    constructor (n: nat)
      ensures View() == Boot(n)
    {
      onus := seq(n, k requires 0 <= k < n => Onu(Created, None, []));
      created, closed, closedTwice := 0, {}, false;
    }

    method CloseChannel(k: nat)
      requires k < |onus|
      modifies this`closed, this`closedTwice
      ensures View() == CloseOf(old(View()), k)
    {
      match onus[k].channel
      case None =>
        closedTwice := true;
      case Some(ch) =>
        closedTwice := closedTwice || ch in closed;
        closed := closed + {ch};
    }

    method FireEvent(k: nat, e: OnuEvent)
      requires k < |onus|
      modifies this
      ensures View() == Step(old(View()), Fire(k, e))
    {
      if OnuAccepts(onus[k].state, e) {
        onus := onus[k := onus[k].(state := OnuTarget(e))];
        if e == Initialize {
          onus := onus[k := onus[k].(channel := Some(created))];
          created := created + 1;
        } else if e == Disable {
          if |onus[k].flowIds| == 0 {
            CloseChannel(k);
          }
        }
      }
    }

    // The state check of FlowAdd and the append of handleFlowAdd.
    method AddFlow(k: nat, flow: uint64)
      requires k < |onus|
      modifies this`onus
      ensures View() == Step(old(View()), FlowAdd(k, flow))
    {
      if onus[k].state != PonDown && onus[k].state != Disabled && onus[k].channel.Some? {
        onus := onus[k := onus[k].(flowIds := onus[k].flowIds + [flow])];
      }
    }

    // GetOnuByFlowId
    method FindOnu(flow: uint64) returns (k: Option<nat>)
      ensures k == Holder(onus, flow)
      ensures k.Some? ==> k.value < |onus| && flow in onus[k.value].flowIds
    {
      HolderFound(onus, flow);
      for i := 0 to |onus|
        invariant forall j :: 0 <= j < i ==> flow !in onus[j].flowIds
      {
        for m := 0 to |onus[i].flowIds|
          invariant flow !in onus[i].flowIds[..m]
        {
          if onus[i].flowIds[m] == flow {
            return Some(i);
          }
        }
        assert onus[i].flowIds[..|onus[i].flowIds|] == onus[i].flowIds;
      }
      return None;
    }

    // The OLT's lookup and handleFlowRemove.
    method RemoveFlow(flow: uint64)
      modifies this
      ensures View() == Step(old(View()), FlowRemove(flow))
      ensures (forall k :: 0 <= k < |old(onus)| ==> flow !in old(onus)[k].flowIds) ==> View() == old(View())
      ensures forall k: nat, i: nat | IsFirst(old(View()), flow, k, i) ::
        SameButFlows(old(View()), View(), k) && onus[k].flowIds == old(onus)[k].flowIds[..i] + old(onus)[k].flowIds[i+1..]
    {
      ghost var was := View();
      RemoveFirst(flow);
      RemoveNothing(was, flow);
      forall k: nat, i: nat | IsFirst(was, flow, k, i)
        ensures SameButFlows(was, View(), k) && onus[k].flowIds == was.onus[k].flowIds[..i] + was.onus[k].flowIds[i+1..]
      {
        RemoveEffect(was, flow, k, i);
      }
    }

    method RemoveFirst(flow: uint64)
      modifies this
      ensures View() == Step(old(View()), FlowRemove(flow))
    {
      var found := FindOnu(flow);
      if found.Some? {
        var k := found.value;
        var flows := onus[k].flowIds;
        var i := 0;
        while flows[i] != flow
          invariant 0 <= i < |flows| && flow !in flows[..i] && flow in flows
          decreases |flows| - i
        {
          i := i + 1;
        }
        WithoutFirst(flows, flow, i);
        onus := onus[k := onus[k].(flowIds := flows[..i] + flows[i+1..])];
        if |onus[k].flowIds| == 0 && onus[k].state == Disabled {
          CloseChannel(k);
        }
      }
    }
  }
}
