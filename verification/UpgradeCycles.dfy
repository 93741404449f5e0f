/** In-order software upgrades: start, sections, end, activation with its reboot, commit. */
module UpgradeCycles {
  import opened MachineIntegers
  import opened Options
  import opened StateMachines
  import opened ByteSlices
  import opened OmciImages
  import opened ImageVersions

  // An image as it is sent: the first section without a response, the others of either kind.
  datatype Image = Image(first: Bytes, rest: seq<ImageSection>, size: uint32, entity: uint16)
  datatype ImageSection = ImageSection(data: Bytes, acknowledged: bool)

  function Version(img: Image): Bytes
    requires |img.first| >= VERSION_LENGTH
  {
    img.first[..VERSION_LENGTH]
  }

  // The bytes of the first section and of n more.
  function Payload(img: Image, n: nat): Bytes
    requires n <= |img.rest|
  {
    if n == 0 then img.first else Payload(img, n - 1) + img.rest[n - 1].data
  }

  // The image has a version, fits the section counter, is no longer than its sections, and its end
  // request does not read as an abort.
  predicate Sendable(rt: Runtime, img: Image) {
    && |img.first| >= VERSION_LENGTH
    && |img.rest| + 1 < TWO_TO_THE_32
    && img.size as nat <= |Payload(img, |img.rest|)|
    && !(img.size == 0 && Crc(rt, img) == ABORT_CRC)
  }

  function Crc(rt: Runtime, img: Image): uint32
    requires img.size as nat <= |Payload(img, |img.rest|)|
  {
    ByteReverse(rt.checksum(Payload(img, |img.rest|)[..img.size]))
  }

  function SectionEvent(x: ImageSection): Event {
    Receive(if x.acknowledged then SectionWithResponse(true, x.data, true) else Section(true, x.data))
  }

  function StartEvent(img: Image): Event
    requires |img.rest| + 1 < TWO_TO_THE_32
  {
    Receive(Request.StartDownload((|img.rest| + 1) as uint32, true))
  }

  function SectionEvents(img: Image, n: nat): seq<Event>
    requires n <= |img.rest| && |img.rest| + 1 < TWO_TO_THE_32
  {
    if n == 0
    then [] + [StartEvent(img)] + [Receive(Section(true, img.first))]
    else SectionEvents(img, n - 1) + [SectionEvent(img.rest[n - 1])]
  }

  // One in-order upgrade: start, sections, matching end, activation with its reboot, commit.
  function Cycle(rt: Runtime, img: Image): seq<Event>
    requires Sendable(rt, img)
  {
    SectionEvents(img, |img.rest|)
    + [Receive(EndDownload(true, img.size, Crc(rt, img), true))]
    + [Receive(ActivateSoftware(true, img.entity, true))]
    + [PowerCycle]
    + [Receive(CommitSoftware(true, img.entity, true))]
  }

  // Every request is processed, and a download may start.
  predicate Ready(s: Omci) {
    && s.alive && s.rate >= MAX_COUNTER && s.counter <= MAX_COUNTER
    && OnuAccepts(s.state, OnuEvent.StartDownload)
  }

  lemma RunOneMore(rt: Runtime, s: Omci, events: seq<Event>, e: Event)
    ensures Run(rt, s, events + [e]) == Step(rt, Run(rt, s, events), e)
  {
    assert (events + [e])[..|events + [e]| - 1] == events;
  }

  // The download so far, seen from the state it started in.
  predicate Downloading(s: Omci, s': Omci, img: Image, n: nat)
    requires |img.first| >= VERSION_LENGTH && n <= |img.rest|
  {
    && s'.alive && s'.rate == s.rate && s'.counter <= MAX_COUNTER
    && s'.state == DownloadInProgress
    && s'.received as int == n + 1 && s'.expected as int == |img.rest| + 1
    && s'.image.data == Payload(img, n) && s'.inDownload == Version(img)
    && s'.active == s.active && s'.committed == s.committed && s'.standby == s.standby
  }

  lemma StartOfDownload(rt: Runtime, s: Omci, sections: uint32)
    requires Ready(s)
    ensures var s' := Step(rt, s, Receive(Request.StartDownload(sections, true)));
      && s'.alive && s'.rate == s.rate && s'.counter <= MAX_COUNTER && s'.state == DownloadStarted
      && s'.received == 0 && s'.expected == sections && s'.image == EMPTY && s'.inDownload == s.inDownload
      && s'.active == s.active && s'.committed == s.committed && s'.standby == s.standby
  {
  }

  lemma FirstOfSections(rt: Runtime, s: Omci, data: Bytes)
    requires s.alive && s.rate >= MAX_COUNTER && s.counter <= MAX_COUNTER && s.state == DownloadStarted
    requires s.received == 0 && s.image == EMPTY && |data| >= VERSION_LENGTH
    ensures var s' := Step(rt, s, Receive(Section(true, data)));
      && s'.alive && s'.rate == s.rate && s'.counter <= MAX_COUNTER && s'.state == DownloadInProgress
      && s'.received == 1 && s'.expected == s.expected && s'.image.data == data && s'.inDownload == data[..VERSION_LENGTH]
      && s'.active == s.active && s'.committed == s.committed && s'.standby == s.standby
  {
    assert [] + data == data;
  }

  lemma FirstSection(rt: Runtime, s: Omci, img: Image)
    requires Ready(s) && Sendable(rt, img)
    ensures Downloading(s, Run(rt, s, SectionEvents(img, 0)), img, 0)
  {
    RunOneMore(rt, s, [], StartEvent(img));
    RunOneMore(rt, s, [] + [StartEvent(img)], Receive(Section(true, img.first)));
    StartOfDownload(rt, s, (|img.rest| + 1) as uint32);
    FirstOfSections(rt, Step(rt, s, StartEvent(img)), img.first);
  }

  lemma OneSection(rt: Runtime, s: Omci, s': Omci, img: Image, n: nat)
    requires Ready(s) && Sendable(rt, img) && 0 < n <= |img.rest|
    requires Downloading(s, s', img, n - 1)
    ensures Downloading(s, Step(rt, s', SectionEvent(img.rest[n - 1])), img, n)
  {
  }

  lemma {:induction false} DownloadSections(rt: Runtime, s: Omci, img: Image, n: nat)
    requires Ready(s) && Sendable(rt, img) && n <= |img.rest|
    ensures Downloading(s, Run(rt, s, SectionEvents(img, n)), img, n)
  {
    if n == 0 {
      FirstSection(rt, s, img);
    } else {
      DownloadSections(rt, s, img, n - 1);
      RunOneMore(rt, s, SectionEvents(img, n - 1), SectionEvent(img.rest[n - 1]));
      OneSection(rt, s, Run(rt, s, SectionEvents(img, n - 1)), img, n);
    }
  }

  lemma EndOfDownload(rt: Runtime, s: Omci, s': Omci, img: Image)
    requires Ready(s) && Sendable(rt, img)
    requires Downloading(s, s', img, |img.rest|)
    ensures var s'' := Step(rt, s', Receive(EndDownload(true, img.size, Crc(rt, img), true)));
      && s''.alive && s''.rate == s.rate && s''.counter <= MAX_COUNTER && s''.state == DownloadComplete
      && s''.standby == Version(img) && s''.active == s.active && s''.committed == s.committed
  {
    assert (s'.image.data + s'.image.spare)[..img.size] == s'.image.data[..img.size];
  }

  lemma ActivateAndCommit(rt: Runtime, s: Omci, entity: uint16)
    requires s.alive && s.rate >= MAX_COUNTER && s.counter <= MAX_COUNTER && s.state == DownloadComplete
    ensures var s1 := Step(rt, s, Receive(ActivateSoftware(true, entity, true)));
      var s2 := Step(rt, s1, PowerCycle);
      var s3 := Step(rt, s2, Receive(CommitSoftware(true, entity, true)));
      && Ready(s3) && s3.state == ImageCommitted && s3.rate == s.rate
      && s3.active == s3.committed == s.standby && s3.standby == s.committed
      && s3.activeEntity == s3.committedEntity == entity
  {
  }

  // After one cycle the image is active and committed, the previously committed image is on
  // standby, and the ONU is ready for the next cycle.
  lemma UpgradeCycle(rt: Runtime, s: Omci, img: Image)
    requires Ready(s) && Sendable(rt, img)
    ensures var s' := Run(rt, s, Cycle(rt, img));
      && Ready(s') && s'.state == ImageCommitted
      && s'.active == s'.committed == Version(img)
      && s'.standby == s.committed
      && s'.activeEntity == s'.committedEntity == img.entity
  {
    var e0 := SectionEvents(img, |img.rest|);
    var end := Receive(EndDownload(true, img.size, Crc(rt, img), true));
    var activate, commit := Receive(ActivateSoftware(true, img.entity, true)), Receive(CommitSoftware(true, img.entity, true));
    DownloadSections(rt, s, img, |img.rest|);
    var s1 := Run(rt, s, e0);
    EndOfDownload(rt, s, s1, img);
    ActivateAndCommit(rt, Step(rt, s1, end), img.entity);
    RunOneMore(rt, s, e0, end);
    RunOneMore(rt, s, e0 + [end], activate);
    RunOneMore(rt, s, e0 + [end] + [activate], PowerCycle);
    RunOneMore(rt, s, e0 + [end] + [activate] + [PowerCycle], commit);
  }

  function Cycles(rt: Runtime, imgs: seq<Image>): seq<Event>
    requires forall i :: 0 <= i < |imgs| ==> Sendable(rt, imgs[i])
  {
    if imgs == [] then [] else Cycles(rt, imgs[..|imgs|-1]) + Cycle(rt, imgs[|imgs|-1])
  }

  // After any number of cycles the last image is active and committed and the one before it, or the
  // image committed at the start, is on standby.
  lemma {:induction false} UpgradeCycles(rt: Runtime, s: Omci, imgs: seq<Image>)
    requires Ready(s) && imgs != []
    requires forall i :: 0 <= i < |imgs| ==> Sendable(rt, imgs[i])
    ensures var s' := Run(rt, s, Cycles(rt, imgs));
      var n := |imgs|;
      && Ready(s') && s'.state == ImageCommitted
      && s'.active == s'.committed == Version(imgs[n-1])
      && s'.standby == (if n == 1 then s.committed else Version(imgs[n-2]))
      && s'.activeEntity == s'.committedEntity == imgs[n-1].entity
    decreases |imgs|
  {
    var n := |imgs| - 1;
    var before := imgs[..n];
    RunConcat(rt, s, Cycles(rt, before), Cycle(rt, imgs[n]));
    if n > 0 {
      UpgradeCycles(rt, s, before);
    }
    UpgradeCycle(rt, Run(rt, s, Cycles(rt, before)), imgs[n]);
  }

  // ----- downloads that put another version on standby

  // The end request that fits what was received.
  function MatchingEnd(rt: Runtime, data: Bytes): Event
    requires 0 < |data| < TWO_TO_THE_32
  {
    Receive(EndDownload(true, |data| as uint32, ByteReverse(rt.checksum(data)), true))
  }

  lemma MatchingEndCompletes(rt: Runtime, s: Omci)
    requires s.alive && s.rate >= MAX_COUNTER && s.counter <= MAX_COUNTER && s.state != Disabled
    requires s.expected == s.received && 0 < |s.image.data| < TWO_TO_THE_32
    ensures Completes(rt, s, MatchingEnd(rt, s.image.data))
    ensures Step(rt, s, MatchingEnd(rt, s.image.data)).standby == s.inDownload
  {
    assert (s.image.data + s.image.spare)[..|s.image.data|] == s.image.data;
    StandbyImage(rt, s, MatchingEnd(rt, s.image.data));
  }

  // From any state a download may start in: one section that asks for a response, and the end that
  // fits it, put the version of whatever was downloaded before on standby.
  lemma AskedDownload(rt: Runtime, s: Omci, data: Bytes)
    requires Ready(s) && 0 < |data| < TWO_TO_THE_32
    ensures var s1 := Step(rt, s, Receive(Request.StartDownload(1, true)));
      var s2 := Step(rt, s1, Receive(SectionWithResponse(true, data, true)));
      && s2.image.data == data && Completes(rt, s2, MatchingEnd(rt, data))
      && Step(rt, s2, MatchingEnd(rt, data)).standby == s.inDownload
  {
    StartOfDownload(rt, s, 1);
    var s1 := Step(rt, s, Receive(Request.StartDownload(1, true)));
    assert [] + data == data;
    MatchingEndCompletes(rt, Step(rt, s1, Receive(SectionWithResponse(true, data, true))));
  }

  // And: an aborted download of one section, another section, and the end that fits both put the
  // version of the second section on standby, although the image begins with the first.
  lemma AbortedDownload(rt: Runtime, s: Omci, a: Bytes, b: Bytes)
    requires Ready(s) && |a| >= VERSION_LENGTH && |b| >= VERSION_LENGTH && |a| + |b| < TWO_TO_THE_32
    ensures var s2 := Run(rt, s, SectionThenAbort(a));
      var s3 := Step(rt, s2, Receive(Section(true, b)));
      && s3.image.data == a + b && Completes(rt, s3, MatchingEnd(rt, a + b))
      && Step(rt, s3, MatchingEnd(rt, a + b)).standby == b[..VERSION_LENGTH]
  {
    var s2 := Run(rt, s, SectionThenAbort(a));
    SectionThenAbortLeaves(rt, s, a);
    SectionAfterAbort(rt, s2, b);
    MatchingEndCompletes(rt, Step(rt, s2, Receive(Section(true, b))));
  }

  lemma SectionAfterAbort(rt: Runtime, s: Omci, b: Bytes)
    requires s.alive && s.rate >= MAX_COUNTER && s.counter <= MAX_COUNTER && s.state == DownloadComplete
    requires s.received == 0 && |b| >= VERSION_LENGTH
    ensures var s' := Step(rt, s, Receive(Section(true, b)));
      && s'.alive && s'.rate == s.rate && s'.counter <= MAX_COUNTER && s'.state == DownloadComplete
      && s'.received == 1 && s'.expected == s.expected
      && s'.image.data == s.image.data + b && s'.inDownload == b[..VERSION_LENGTH]
  {
  }

  function SectionThenAbort(a: Bytes): seq<Event> {
    [Receive(Request.StartDownload(1, true))] + [Receive(Section(true, a))] + [Receive(EndDownload(true, 0, ABORT_CRC, true))]
  }

  lemma SectionThenAbortLeaves(rt: Runtime, s: Omci, a: Bytes)
    requires Ready(s) && |a| >= VERSION_LENGTH
    ensures var s' := Run(rt, s, SectionThenAbort(a));
      && s'.alive && s'.rate == s.rate && s'.counter <= MAX_COUNTER && s'.state == DownloadComplete
      && s'.received == 0 && s'.expected == 1 && s'.image.data == a
  {
    var start, first, abort := Receive(Request.StartDownload(1, true)), Receive(Section(true, a)), Receive(EndDownload(true, 0, ABORT_CRC, true));
    RunOneMore(rt, s, [], start);
    RunOneMore(rt, s, [start], first);
    RunOneMore(rt, s, [start] + [first], abort);
    assert [] + [start] == [start];
    StartOfDownload(rt, s, 1);
    FirstOfSections(rt, Step(rt, s, start), a);
    StepCounts(Sections, rt, Step(rt, Step(rt, s, start), first), abort);
  }
}
