/** The OMCI request handler of an ONU: response-rate gate, MIB data sync and software images.

    Requests arrive decoded. The flags of a request say whether the OMCI library could parse it
    (parsed) and build its response (responded), and for a set or create whether the entity behind
    it was changed. The image checksum and the growth of slices are parameters. A run-time panic,
    which is slicing past the capacity, makes alive false. */
module OmciImages {
  import opened MachineIntegers
  import opened StateMachines
  import opened ByteSlices

  const MAX_COUNTER: uint8 := 10 // maxOmciMsgCounter
  const VERSION_LENGTH := 14
  const ABORT_CRC: uint32 := 0xFFFF_FFFF

  const STANDBY_AT_BOOT: Bytes := [66, 66, 83, 77, 95, 73, 77, 71, 95, 48, 48, 48, 48, 48] // BBSM_IMG_00000
  const ACTIVE_AT_BOOT: Bytes := [66, 66, 83, 77, 95, 73, 77, 71, 95, 48, 48, 48, 48, 49] // BBSM_IMG_00001

  datatype Omci = Omci(
    rate: uint8, // OmciResponseRate
    counter: uint8, // OmciMsgCounter
    mds: uint8, // MibDataSync
    state: OnuState,
    expected: uint32, // ImageSoftwareExpectedSections
    received: uint32, // ImageSoftwareReceivedSections
    image: Slice, // ImageSectionData
    inDownload: Bytes,
    standby: Bytes,
    active: Bytes,
    committed: Bytes,
    activeEntity: uint16,
    committedEntity: uint16,
    alive: bool)

  datatype Request =
    | MibReset(responded: bool)
    | Set(applied: bool, responded: bool)
    | Create(refused: bool, responded: bool)
    | Delete(responded: bool)
    | StartDownload(sections: uint32, responded: bool)
    | Section(parsed: bool, data: Bytes)
    | SectionWithResponse(parsed: bool, data: Bytes, responded: bool)
    | EndDownload(parsed: bool, size: uint32, crc: uint32, responded: bool)
    | ActivateSoftware(parsed: bool, entity: uint16, responded: bool)
    | CommitSoftware(parsed: bool, entity: uint16, responded: bool)
    | Query // get, MIB upload, time, test, reboot and alarm requests

  const IMAGE_EVENTS: set<OnuEvent> :=
    {OnuEvent.StartDownload, ProgressDownload, CompleteDownload, FailDownload, ActivateImage, CommitImage}

  datatype Event =
    | Receive(request: Request)
    | PowerCycle // the reboot that follows an activation or a reboot request
    | Fire(event: OnuEvent)
    | Invalidate(amount: uint8) // InvalidateMibDataSync, with its random number from 1 to 10

  // What the requests do not determine: the image checksum, and the growth of slices.
  datatype Runtime = Runtime(checksum: Bytes -> uint32, grow: Growth)

  // ----- the gate

  function NextCounter(c: uint8): uint8 {
    if c < MAX_COUNTER then c + 1 else 1
  }

  predicate Passes(s: Omci) {
    NextCounter(s.counter) <= s.rate
  }

  // ----- the image checks

  // Byte i of a 32-bit word, the least significant one first.
  function ByteAt(x: uint32, i: nat): (b: int)
    requires i < 4
    ensures 0 <= b < 256
  {
    var n := x as int;
    if i == 0 then n % 256 else if i == 1 then n / 0x100 % 256 else if i == 2 then n / 0x1_0000 % 256 else n / 0x100_0000
  }

  function Word(b0: int, b1: int, b2: int, b3: int): (r: uint32)
    requires 0 <= b0 < 256 && 0 <= b1 < 256 && 0 <= b2 < 256 && 0 <= b3 < 256
    ensures ByteAt(r, 0) == b0 && ByteAt(r, 1) == b1 && ByteAt(r, 2) == b2 && ByteAt(r, 3) == b3
  {
    var low, high := b0 + 0x100 * b1, b2 + 0x100 * b3;
    var n := low + 0x1_0000 * high;
    assert n / 0x1_0000 == high && n % 0x1_0000 == low;
    assert n / 0x100 == b1 + 0x100 * high && n / 0x100_0000 == b3;
    n as uint32
  }

  // A 32-bit word written little endian and read back big endian.
  function ByteReverse(x: uint32): (r: uint32)
    ensures forall i :: 0 <= i < 4 ==> ByteAt(r, i) == ByteAt(x, 3 - i)
  {
    Word(ByteAt(x, 3), ByteAt(x, 2), ByteAt(x, 1), ByteAt(x, 0))
  }

  predicate IsAbort(s: Omci, size: uint32, crc: uint32) {
    s.received > 0 && size == 0 && crc == ABORT_CRC
  }

  datatype EndResult = Aborted | Rejected | Overrun | Verified

  function EndOutcome(rt: Runtime, s: Omci, q: Request): EndResult
    requires q.EndDownload?
  {
    if !q.parsed then Rejected
    else if IsAbort(s, q.size, q.crc) then Aborted
    else if s.expected != s.received then Rejected
    else match Prefix(s.image, q.size as nat)
      case None => Overrun
      case Some(bytes) => if q.crc == ByteReverse(rt.checksum(bytes)) then Verified else Rejected
  }

  // ----- requests

  function Fired(s: Omci, e: OnuEvent): Omci {
    s.(state := AfterOnuEvent(s.state, e))
  }

  function Synced(s: Omci): Omci {
    s.(mds := Wrap8(s.mds as int + 1))
  }

  function OneMoreSection(s: Omci): Omci {
    s.(received := Wrap32(s.received as int + 1))
  }

  // The first section that is counted gives the version; the library hands out sections without
  // spare capacity, so a short one panics.
  function HandleSection(rt: Runtime, s: Omci, q: Request): Omci
    requires q.Section?
  {
    if !q.parsed then s
    else if s.received == 0 && |q.data| < VERSION_LENGTH then s.(alive := false)
    else
      var s1 := if s.received == 0 then s.(inDownload := q.data[..VERSION_LENGTH]) else s;
      var s2 := OneMoreSection(s1.(image := Appended(s1.image, rt.grow, q.data)));
      if s.state == DownloadInProgress then s2 else Fired(s2, ProgressDownload)
  }

  function HandleEnd(rt: Runtime, s: Omci, q: Request): Omci
    requires q.EndDownload?
  {
    match EndOutcome(rt, s, q)
    case Overrun => s.(alive := false)
    case Rejected => if q.responded then Fired(s, FailDownload) else s
    case Aborted =>
      var s1 := s.(received := 0);
      if q.responded then Fired(Synced(s1), CompleteDownload) else s1
    case Verified =>
      var s1 := s.(standby := s.inDownload);
      if q.responded then Fired(Synced(s1), CompleteDownload) else s1
  }

  // A request that passed the gate.
  function Process(rt: Runtime, s: Omci, q: Request): Omci {
    match q
    case MibReset(responded) => if responded then s.(mds := 0) else s
    case Set(applied, responded) => if applied && responded then Synced(s) else s
    case Create(refused, responded) => if !refused && responded then Synced(s) else s
    case Delete(responded) => if responded then Synced(s) else s
    case StartDownload(sections, responded) =>
      var s1 := s.(received := 0, image := EMPTY, expected := sections);
      if responded then Fired(Synced(s1), OnuEvent.StartDownload) else s1
    case Section(_, _) => HandleSection(rt, s, q)
    case SectionWithResponse(parsed, data, responded) =>
      if !parsed then s
      else
        var s1 := s.(image := Appended(s.image, rt.grow, data));
        if responded then OneMoreSection(s1) else s1
    case EndDownload(_, _, _, _) => HandleEnd(rt, s, q)
    case ActivateSoftware(parsed, entity, responded) =>
      if !responded then s
      else
        var s1 := Fired(Synced(s), ActivateImage);
        if parsed then s1.(activeEntity := entity, active := s.standby, standby := s.active) else s1
    case CommitSoftware(parsed, entity, responded) =>
      if !responded then s
      else
        var s1 := Synced(s);
        var s2 := if parsed
                  then s1.(activeEntity := entity, committedEntity := entity, standby := s.committed, committed := s.active)
                  else s1;
        Fired(s2, CommitImage)
    case Query => s
  }

  function Handle(rt: Runtime, s: Omci, q: Request): Omci {
    var s1 := s.(counter := NextCounter(s.counter));
    if Passes(s) then Process(rt, s1, q) else s1
  }

  // A refused shutdown ends the reboot; otherwise the ONU comes back enabled.
  function StateAfterReboot(s: OnuState): OnuState {
    if OnuAccepts(s, Disable) then Enabled else s
  }

  function Invalidated(mds: uint8, amount: uint8): uint8 {
    var m := Wrap8(mds as int + amount as int);
    if m == 0 then 1 else m
  }

  // OMCI messages for a disabled ONU are dropped before they reach it.
  function Step(rt: Runtime, s: Omci, e: Event): Omci {
    if !s.alive then s
    else match e
      case Receive(q) => if s.state == Disabled then s else Handle(rt, s, q)
      case PowerCycle => s.(state := StateAfterReboot(s.state))
      case Fire(ev) => if ev in IMAGE_EVENTS then s else Fired(s, ev) // those come from the handler only
      case Invalidate(amount) => s.(mds := Invalidated(s.mds, amount))
  }

  function Boot(rate: uint8): Omci {
    Omci(rate, 0, 0, Created, 0, 0, EMPTY, [], STANDBY_AT_BOOT, ACTIVE_AT_BOOT, ACTIVE_AT_BOOT, 0, 0, true)
  }

  function Run(rt: Runtime, s: Omci, events: seq<Event>): Omci {
    if events == [] then s else Step(rt, Run(rt, s, events[..|events|-1]), events[|events|-1])
  }

  lemma {:induction false} RunConcat(rt: Runtime, s: Omci, before: seq<Event>, after: seq<Event>)
    ensures Run(rt, s, before + after) == Run(rt, Run(rt, s, before), after)
    decreases |after|
  {
    if after == [] {
      assert before + after == before;
    } else {
      var n := |after| - 1;
      RunConcat(rt, s, before, after[..n]);
      assert (before + after)[..|before + after| - 1] == before + after[..n];
    }
  }

  // ----- the gate lets a fixed number of requests through

  // The event is a request that reaches the ONU, and one that passes the gate as well.
  predicate Delivered(s: Omci, e: Event) {
    e.Receive? && s.alive && s.state != Disabled
  }

  predicate Processed(s: Omci, e: Event) {
    Delivered(s, e) && Passes(s)
  }

  // How many requests of the run were delivered, and how many processed.
  function DeliveredIn(rt: Runtime, rate: uint8, events: seq<Event>): nat {
    if events == [] then 0
    else
      var n := |events| - 1;
      DeliveredIn(rt, rate, events[..n]) + if Delivered(Run(rt, Boot(rate), events[..n]), events[n]) then 1 else 0
  }

  function ProcessedIn(rt: Runtime, rate: uint8, events: seq<Event>): nat {
    if events == [] then 0
    else
      var n := |events| - 1;
      ProcessedIn(rt, rate, events[..n]) + if Processed(Run(rt, Boot(rate), events[..n]), events[n]) then 1 else 0
  }

  function Min(a: int, b: int): int {
    if a <= b then a else b
  }

  // How many of n requests pass: the first rate of every ten.
  function Share(rate: uint8, n: nat): nat {
    if n == 0 then 0 else Share(rate, n - 1) + if (n - 1) % 10 < rate as int then 1 else 0
  }

  lemma {:induction false} FirstShare(rate: uint8, n: nat)
    requires n <= 10
    ensures Share(rate, n) == Min(rate as int, n)
  {
    if n > 0 {
      FirstShare(rate, n - 1);
    }
  }

  lemma {:induction false} TenMoreShare(rate: uint8, n: nat)
    ensures Share(rate, n + 10) == Share(rate, n) + Min(rate as int, 10)
  {
    if n == 0 {
      FirstShare(rate, 10);
    } else {
      TenMoreShare(rate, n - 1);
      assert (n + 9) % 10 == (n - 1) % 10;
    }
  }

  lemma HandleCounts(rt: Runtime, s: Omci, q: Request)
    ensures Handle(rt, s, q).counter == NextCounter(s.counter)
    ensures Handle(rt, s, q).rate == s.rate
  {
  }

  // The counter is the place of the last delivered request among its ten.
  predicate CountsTo(s: Omci, n: nat) {
    s.counter <= MAX_COUNTER && NextCounter(s.counter) as int == n % 10 + 1
  }

  lemma GateStep(rt: Runtime, s: Omci, e: Event, n: nat)
    requires CountsTo(s, n)
    ensures CountsTo(Step(rt, s, e), if Delivered(s, e) then n + 1 else n)
    ensures Step(rt, s, e).rate == s.rate
    ensures Processed(s, e) <==> Delivered(s, e) && n % 10 < s.rate as int
  {
    if e.Receive? {
      HandleCounts(rt, s, e.request);
    }
  }

  // In every run exactly the first rate requests of every ten delivered ones were processed.
  lemma {:induction false} GateCounts(rt: Runtime, rate: uint8, events: seq<Event>)
    ensures CountsTo(Run(rt, Boot(rate), events), DeliveredIn(rt, rate, events))
    ensures Run(rt, Boot(rate), events).rate == rate
    ensures ProcessedIn(rt, rate, events) == Share(rate, DeliveredIn(rt, rate, events))
  {
    if events != [] {
      var before, e := events[..|events|-1], events[|events|-1];
      GateCounts(rt, rate, before);
      GateStep(rt, Run(rt, Boot(rate), before), e, DeliveredIn(rt, rate, before));
    }
  }

  // Of any ten requests that are delivered one after the other, whatever else happens before and
  // between them, exactly min(rate, 10) are processed.
  lemma GateLetsThrough(rt: Runtime, rate: uint8, events: seq<Event>, more: seq<Event>)
    requires DeliveredIn(rt, rate, events + more) == DeliveredIn(rt, rate, events) + 10
    ensures ProcessedIn(rt, rate, events + more) == ProcessedIn(rt, rate, events) + Min(rate as int, 10)
  {
    GateCounts(rt, rate, events);
    GateCounts(rt, rate, events + more);
    TenMoreShare(rate, DeliveredIn(rt, rate, events));
  }

  // ----- the two counters as counts of past requests

  // MibDataSync and ImageSoftwareReceivedSections.
  datatype Counter = DataSync | Sections

  function Value(c: Counter, s: Omci): int {
    if c == DataSync then s.mds as int else s.received as int
  }

  function Modulus(c: Counter): int {
    if c == DataSync then TWO_TO_THE_8 else TWO_TO_THE_32
  }

  // The request is answered with success, or the section is acknowledged.
  predicate Counts(c: Counter, rt: Runtime, s: Omci, e: Event) {
    Processed(s, e) &&
    match c
    case DataSync =>
      (match e.request
       case Set(applied, responded) => applied && responded
       case Create(refused, responded) => !refused && responded
       case Delete(responded) => responded
       case StartDownload(_, responded) => responded
       case EndDownload(_, _, _, responded) => responded && EndOutcome(rt, s, e.request) in {Aborted, Verified}
       case ActivateSoftware(_, _, responded) => responded
       case CommitSoftware(_, _, responded) => responded
       case _ => false)
    case Sections =>
      match e.request
      case Section(parsed, data) => parsed && (s.received == 0 ==> |data| >= VERSION_LENGTH)
      case SectionWithResponse(parsed, _, responded) => parsed && responded
      case _ => false
  }

  // The counter starts again: a MIB reset; the start or the abort of a download.
  predicate Restarts(c: Counter, rt: Runtime, s: Omci, e: Event) {
    Processed(s, e) &&
    match c
    case DataSync => e.request == MibReset(true)
    case Sections =>
      e.request.StartDownload? || (e.request.EndDownload? && EndOutcome(rt, s, e.request) == Aborted)
  }

  lemma StepCounts(c: Counter, rt: Runtime, s: Omci, e: Event)
    requires c == DataSync ==> !e.Invalidate?
    ensures Value(c, Step(rt, s, e)) ==
            if Restarts(c, rt, s, e) then 0
            else if Counts(c, rt, s, e) then (Value(c, s) + 1) % Modulus(c)
            else Value(c, s)
  {
  }

  predicate CountsAt(c: Counter, rt: Runtime, rate: uint8, events: seq<Event>, i: nat)
    requires i < |events|
  {
    Counts(c, rt, Run(rt, Boot(rate), events[..i]), events[i])
  }

  predicate RestartsAt(c: Counter, rt: Runtime, rate: uint8, events: seq<Event>, i: nat)
    requires i < |events|
  {
    Restarts(c, rt, Run(rt, Boot(rate), events[..i]), events[i])
  }

  // The counter last started again just before event number from.
  ghost predicate LastRestart(c: Counter, rt: Runtime, rate: uint8, events: seq<Event>, from: nat) {
    && from <= |events|
    && (from > 0 ==> RestartsAt(c, rt, rate, events, from - 1))
    && (forall i :: from <= i < |events| ==> !RestartsAt(c, rt, rate, events, i))
  }

  // For each event of the run, whether it counts.
  function Hits(c: Counter, rt: Runtime, rate: uint8, events: seq<Event>): (hits: seq<bool>)
    ensures |hits| == |events|
  {
    seq(|events|, i requires 0 <= i < |events| => CountsAt(c, rt, rate, events, i))
  }

  function HitsSince(hits: seq<bool>, from: nat): set<int> {
    set i | from <= i < |hits| && hits[i]
  }

  // The events that count, from event number from on.
  function CountedSince(c: Counter, rt: Runtime, rate: uint8, events: seq<Event>, from: nat): set<int> {
    HitsSince(Hits(c, rt, rate, events), from)
  }

  lemma HitsGrow(hits: seq<bool>, from: nat)
    requires from < |hits|
    ensures |HitsSince(hits, from)| == |HitsSince(hits[..|hits|-1], from)| + if hits[|hits|-1] then 1 else 0
  {
    var n := |hits| - 1;
    assert HitsSince(hits, from) == HitsSince(hits[..n], from) + if hits[n] then {n} else {};
  }

  lemma SameEarlier(c: Counter, rt: Runtime, rate: uint8, events: seq<Event>)
    requires events != []
    ensures var before := events[..|events|-1];
      forall i :: 0 <= i < |before| ==>
        && CountsAt(c, rt, rate, before, i) == CountsAt(c, rt, rate, events, i)
        && RestartsAt(c, rt, rate, before, i) == RestartsAt(c, rt, rate, events, i)
  {
    var before := events[..|events|-1];
    assert forall i :: 0 <= i < |before| ==> before[..i] == events[..i] && before[i] == events[i];
  }

  lemma EarlierRestart(c: Counter, rt: Runtime, rate: uint8, events: seq<Event>, from: nat)
    requires LastRestart(c, rt, rate, events, from) && from < |events|
    ensures LastRestart(c, rt, rate, events[..|events|-1], from)
    ensures !RestartsAt(c, rt, rate, events, |events| - 1)
  {
    SameEarlier(c, rt, rate, events);
  }

  lemma LastStep(c: Counter, rt: Runtime, rate: uint8, events: seq<Event>)
    requires events != []
    requires c == DataSync ==> !events[|events|-1].Invalidate?
    ensures var n := |events| - 1;
      var was := Value(c, Run(rt, Boot(rate), events[..n]));
      Value(c, Run(rt, Boot(rate), events)) ==
      if RestartsAt(c, rt, rate, events, n) then 0
      else if CountsAt(c, rt, rate, events, n) then (was + 1) % Modulus(c)
      else was
  {
    var n := |events| - 1;
    StepCounts(c, rt, Run(rt, Boot(rate), events[..n]), events[n]);
  }

  lemma JustRestarted(c: Counter, rt: Runtime, rate: uint8, events: seq<Event>)
    requires LastRestart(c, rt, rate, events, |events|)
    ensures Value(c, Run(rt, Boot(rate), events)) == 0
    ensures CountedSince(c, rt, rate, events, |events|) == {}
  {
    if events != [] {
      var n := |events| - 1;
      StepCounts(c, rt, Run(rt, Boot(rate), events[..n]), events[n]);
    }
  }

  lemma CountedGrows(c: Counter, rt: Runtime, rate: uint8, events: seq<Event>, from: nat)
    requires from < |events|
    ensures var n := |events| - 1;
      |CountedSince(c, rt, rate, events, from)| ==
      |CountedSince(c, rt, rate, events[..n], from)| + if CountsAt(c, rt, rate, events, n) then 1 else 0
  {
    var n := |events| - 1;
    SameEarlier(c, rt, rate, events);
    HitsGrow(Hits(c, rt, rate, events), from);
    assert Hits(c, rt, rate, events[..n]) == Hits(c, rt, rate, events)[..n];
  }

  // Value and count move together.
  lemma LastCounted(c: Counter, rt: Runtime, rate: uint8, events: seq<Event>, from: nat)
    requires from < |events| && !RestartsAt(c, rt, rate, events, |events| - 1)
    requires c == DataSync ==> !events[|events|-1].Invalidate?
    ensures var before := events[..|events|-1];
      var was, count := Value(c, Run(rt, Boot(rate), before)), |CountedSince(c, rt, rate, before, from)|;
      var now, count' := Value(c, Run(rt, Boot(rate), events)), |CountedSince(c, rt, rate, events, from)|;
      (now == was && count' == count) || (now == (was + 1) % Modulus(c) && count' == count + 1)
  {
    LastStep(c, rt, rate, events);
    CountedGrows(c, rt, rate, events, from);
  }

  // In every run, MibDataSync is the number of requests answered with success since the last MIB
  // reset, modulo 256 and as long as it is not invalidated over the API; the section counter is the
  // number of sections acknowledged since the last start or abort, modulo 2^32.
  lemma {:induction false} CountersAreHistory(c: Counter, rt: Runtime, rate: uint8, events: seq<Event>, from: nat)
    requires LastRestart(c, rt, rate, events, from)
    requires c == DataSync ==> forall i :: from <= i < |events| ==> !events[i].Invalidate?
    ensures Value(c, Run(rt, Boot(rate), events)) == |CountedSince(c, rt, rate, events, from)| % Modulus(c)
    decreases |events|
  {
    if from == |events| {
      JustRestarted(c, rt, rate, events);
    } else {
      var n := |events| - 1;
      EarlierRestart(c, rt, rate, events, from);
      CountersAreHistory(c, rt, rate, events[..n], from);
      LastCounted(c, rt, rate, events, from);
      Increment(|CountedSince(c, rt, rate, events[..n], from)|, Modulus(c));
    }
  }

  lemma Increment(n: nat, m: int)
    requires m in {TWO_TO_THE_8, TWO_TO_THE_32}
    ensures (n % m + 1) % m == (n + 1) % m
  {
  }

  // ----- the image buffer as the sections of the download

  // The bytes a section adds. A section whose response fails is buffered but not acknowledged.
  function Buffers(s: Omci, e: Event): Bytes {
    if !Processed(s, e) then []
    else match e.request
      case Section(parsed, data) => if parsed && (s.received == 0 ==> |data| >= VERSION_LENGTH) then data else []
      case SectionWithResponse(parsed, data, _) => if parsed then data else []
      case _ => []
  }

  predicate StartsDownload(s: Omci, e: Event) {
    Processed(s, e) && e.request.StartDownload?
  }

  function BuffersAt(rt: Runtime, rate: uint8, events: seq<Event>, i: nat): Bytes
    requires i < |events|
  {
    Buffers(Run(rt, Boot(rate), events[..i]), events[i])
  }

  predicate StartsDownloadAt(rt: Runtime, rate: uint8, events: seq<Event>, i: nat)
    requires i < |events|
  {
    StartsDownload(Run(rt, Boot(rate), events[..i]), events[i])
  }

  // The sections of events from .. to, one after the other.
  function SectionsBetween(rt: Runtime, rate: uint8, events: seq<Event>, from: nat, to: nat): Bytes
    requires to <= |events|
  {
    if to <= from then []
    else SectionsBetween(rt, rate, events, from, to - 1) + BuffersAt(rt, rate, events, to - 1)
  }

  // A start empties the slice; otherwise it only ever grows by appending.
  lemma StepImage(rt: Runtime, s: Omci, e: Event)
    ensures Step(rt, s, e).image == if StartsDownload(s, e) then EMPTY else Appended(s.image, rt.grow, Buffers(s, e))
  {
    assert s.image.data + [] == s.image.data && s.image.spare[0..] == s.image.spare;
  }

  lemma StepBuffers(rt: Runtime, s: Omci, e: Event)
    ensures Step(rt, s, e).image.data == if StartsDownload(s, e) then [] else s.image.data + Buffers(s, e)
  {
    StepImage(rt, s, e);
  }

  // In every run the bytes between the length and the capacity are zero.
  lemma {:induction false} SpareIsZero(rt: Runtime, rate: uint8, events: seq<Event>)
    ensures ZeroSpare(Run(rt, Boot(rate), events).image)
  {
    if events != [] {
      var s, e := Run(rt, Boot(rate), events[..|events|-1]), events[|events|-1];
      SpareIsZero(rt, rate, events[..|events|-1]);
      StepImage(rt, s, e);
      AppendKeepsZeros(s.image, rt.grow, Buffers(s, e));
    }
  }

  lemma {:induction false} PrefixSections(rt: Runtime, rate: uint8, events: seq<Event>, from: nat, to: nat, n: nat)
    requires to <= n <= |events|
    ensures SectionsBetween(rt, rate, events[..n], from, to) == SectionsBetween(rt, rate, events, from, to)
  {
    if from < to {
      PrefixSections(rt, rate, events, from, to - 1, n);
      assert events[..n][..to-1] == events[..to-1];
    }
  }

  // In every run the buffer is the concatenation of the sections since the last start.
  lemma {:induction false} BufferIsSections(rt: Runtime, rate: uint8, events: seq<Event>, from: nat)
    requires from <= |events| && (from > 0 ==> StartsDownloadAt(rt, rate, events, from - 1))
    requires forall i :: from <= i < |events| ==> !StartsDownloadAt(rt, rate, events, i)
    ensures Run(rt, Boot(rate), events).image.data == SectionsBetween(rt, rate, events, from, |events|)
    decreases |events|
  {
    if events != [] {
      var n := |events| - 1;
      var before := events[..n];
      StepBuffers(rt, Run(rt, Boot(rate), before), events[n]);
      if from < |events| {
        assert forall i :: 0 <= i < n ==> before[..i] == events[..i] && before[i] == events[i];
        assert forall i :: 0 <= i < n ==>
          StartsDownloadAt(rt, rate, before, i) == StartsDownloadAt(rt, rate, events, i);
        BufferIsSections(rt, rate, before, from);
        PrefixSections(rt, rate, events, from, n, n);
        assert !StartsDownloadAt(rt, rate, events, n);
      }
    }
  }
}
