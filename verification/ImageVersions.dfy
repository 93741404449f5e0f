/** Which image a software download puts on standby, and what its end request answers.

    The version of an image is read from the first section that arrives without asking for a response
    while no section is counted. Everything here is about the runs of OmciImages. */
module ImageVersions {
  import opened MachineIntegers
  import opened Options
  import opened StateMachines
  import opened ByteSlices
  import opened OmciImages

  function After(rt: Runtime, rate: uint8, events: seq<Event>): Omci {
    Run(rt, Boot(rate), events)
  }

  // ----- the answer to an end request

  // As many sections as announced, and not an abort.
  predicate AllReceived(s: Omci, q: Request)
    requires q.EndDownload?
  {
    q.parsed && !IsAbort(s, q.size, q.crc) && s.expected == s.received
  }

  // The end of a download that is taken for complete.
  predicate Completes(rt: Runtime, s: Omci, e: Event) {
    Processed(s, e) && e.request.EndDownload? && EndOutcome(rt, s, e.request) == Verified
  }

  lemma Bytewise(x: uint32, y: uint32)
    requires forall i :: 0 <= i < 4 ==> ByteAt(x, i) == ByteAt(y, i)
    ensures x == y
  {
    forall z: uint32
      ensures z as int == ByteAt(z, 0) + 0x100 * (ByteAt(z, 1) + 0x100 * (ByteAt(z, 2) + 0x100 * ByteAt(z, 3)))
    {
      var n := z as int;
      assert n / 0x1_0000 == n / 0x100 / 0x100 && n / 0x100_0000 == n / 0x1_0000 / 0x100;
    }
    assert ByteAt(x, 0) == ByteAt(y, 0) && ByteAt(x, 1) == ByteAt(y, 1) && ByteAt(x, 2) == ByteAt(y, 2) && ByteAt(x, 3) == ByteAt(y, 3);
  }

  lemma ByteReverseTwice(x: uint32)
    ensures ByteReverse(ByteReverse(x)) == x
  {
    var y := ByteReverse(x);
    var z := ByteReverse(y);
    forall i | 0 <= i < 4
      ensures ByteAt(z, i) == ByteAt(x, i)
    {
      assert ByteAt(z, i) == ByteAt(y, 3 - i);
    }
    Bytewise(z, x);
  }

  // In every run, once all sections were received: a request for more bytes than the slice can hold
  // panics, and any other is accepted exactly when its CRC, read in the other byte order, is the
  // checksum of the received bytes cut, or made up with zeros, to the size it names.
  lemma EndIsExact(rt: Runtime, rate: uint8, events: seq<Event>, q: Request)
    requires q.EndDownload? && AllReceived(After(rt, rate, events), q)
    ensures var s, size := After(rt, rate, events), q.size as nat;
      && (EndOutcome(rt, s, q) == Overrun <==> size > Capacity(s.image))
      && (EndOutcome(rt, s, q) == Verified <==>
            size <= Capacity(s.image) && ByteReverse(q.crc) == rt.checksum(Padded(s.image.data, size)))
  {
    var s := After(rt, rate, events);
    SpareIsZero(rt, rate, events);
    PrefixIsPadded(s.image, q.size as nat);
    if q.size as nat <= Capacity(s.image) {
      ByteReverseTwice(rt.checksum(Padded(s.image.data, q.size as nat)));
      ByteReverseTwice(q.crc);
    }
  }

  // The standby image changes on exactly three occasions: a completed download, an activation
  // (which swaps it with the active image) and a commit (which keeps the previously committed one).
  lemma StandbyImage(rt: Runtime, s: Omci, e: Event)
    ensures Step(rt, s, e).standby ==
            if Completes(rt, s, e) then s.inDownload
            else if Processed(s, e) && e.request.ActivateSoftware? && e.request.responded && e.request.parsed then s.active
            else if Processed(s, e) && e.request.CommitSoftware? && e.request.responded && e.request.parsed then s.committed
            else s.standby
  {
  }

  // Nothing but an activation and a commit changes the active and the committed image: an activation
  // makes the standby image active under the entity it names, a commit keeps the active image under
  // the entity it names.
  lemma ActiveAndCommitted(rt: Runtime, s: Omci, e: Event)
    ensures var s' := Step(rt, s, e);
      var activates := Processed(s, e) && e.request.ActivateSoftware? && e.request.responded && e.request.parsed;
      var commits := Processed(s, e) && e.request.CommitSoftware? && e.request.responded && e.request.parsed;
      && s'.active == (if activates then s.standby else s.active)
      && s'.activeEntity == (if activates || commits then e.request.entity else s.activeEntity)
      && s'.committed == (if commits then s.active else s.committed)
      && s'.committedEntity == (if commits then e.request.entity else s.committedEntity)
  {
    if Processed(s, e) {
      match e.request
      case Section(_, _) =>
      case EndDownload(_, _, _, _) =>
      case _ =>
    }
  }

  // The number of sections to expect is that of the last start.
  lemma ExpectedSections(rt: Runtime, s: Omci, e: Event)
    ensures Step(rt, s, e).expected ==
            if Processed(s, e) && e.request.StartDownload? then e.request.sections else s.expected
  {
    if Processed(s, e) {
      match e.request
      case Section(_, _) =>
      case EndDownload(_, _, _, _) =>
      case _ =>
    }
  }

  // Invalidating the MIB data sync always changes it, and never to the value a MIB reset leaves.
  lemma InvalidationShows(rt: Runtime, s: Omci, amount: uint8)
    requires s.alive && 1 <= amount <= 10
    ensures var s' := Step(rt, s, Invalidate(amount)); s'.mds != s.mds && s'.mds != 0 && s' == s.(mds := s'.mds)
  {
  }

  // An ONU starts with BBSM_IMG_00001 active and committed, and BBSM_IMG_00000 on standby.
  lemma FirstImages(rate: uint8)
    ensures var s := Boot(rate);
      && s.active == s.committed && |s.active| == |s.standby| == 14 && s.active[..13] == s.standby[..13]
      && s.active[13] == '1' as uint8 && s.standby[13] == '0' as uint8
      && (forall i :: 0 <= i < 9 ==> s.active[i] == "BBSM_IMG_"[i] as uint8)
      && (forall i :: 9 <= i < 13 ==> s.active[i] == '0' as uint8)
      && s.activeEntity == s.committedEntity == 0
  {
  }

  // ----- the version is that of the last section that opened a count

  predicate IsVersioned(s: Omci, e: Event) {
    Processed(s, e) && e.request.Section? && e.request.parsed && s.received == 0 && |e.request.data| >= VERSION_LENGTH
  }

  lemma StepVersion(rt: Runtime, s: Omci, e: Event)
    ensures Step(rt, s, e).inDownload == if IsVersioned(s, e) then e.request.data[..VERSION_LENGTH] else s.inDownload
  {
    if Processed(s, e) {
      match e.request
      case Section(_, _) =>
      case EndDownload(_, _, _, _) =>
      case _ =>
    }
  }

  predicate IsVersionedAt(rt: Runtime, rate: uint8, events: seq<Event>, i: nat)
    requires i < |events|
  {
    IsVersioned(After(rt, rate, events[..i]), events[i])
  }

  // Section i is the last one of the run a version was read from.
  ghost predicate VersionFrom(rt: Runtime, rate: uint8, events: seq<Event>, i: nat) {
    && i < |events| && IsVersionedAt(rt, rate, events, i)
    && (forall j :: i < j < |events| ==> !IsVersionedAt(rt, rate, events, j))
  }

  ghost predicate NoVersion(rt: Runtime, rate: uint8, events: seq<Event>) {
    forall j :: 0 <= j < |events| ==> !IsVersionedAt(rt, rate, events, j)
  }

  lemma SameVersioned(rt: Runtime, rate: uint8, events: seq<Event>, i: nat)
    requires i < |events| - 1
    ensures IsVersionedAt(rt, rate, events[..|events|-1], i) == IsVersionedAt(rt, rate, events, i)
  {
    assert events[..|events|-1][..i] == events[..i];
  }

  // The run without its last event, seen from the run that has it.
  lemma EarlierVersions(rt: Runtime, rate: uint8, events: seq<Event>, i: nat)
    requires events != []
    ensures NoVersion(rt, rate, events) ==>
              NoVersion(rt, rate, events[..|events|-1]) && !IsVersionedAt(rt, rate, events, |events| - 1)
    ensures VersionFrom(rt, rate, events, i) && i < |events| - 1 ==>
              VersionFrom(rt, rate, events[..|events|-1], i) && !IsVersionedAt(rt, rate, events, |events| - 1)
  {
    var before := events[..|events|-1];
    var from := if NoVersion(rt, rate, events) then 0 else i + 1;
    if NoVersion(rt, rate, events) || (VersionFrom(rt, rate, events, i) && i < |before|) {
      forall j | from <= j < |before|
        ensures !IsVersionedAt(rt, rate, before, j)
      {
        SameVersioned(rt, rate, events, j);
        assert !IsVersionedAt(rt, rate, events, j);
      }
      if i < |before| {
        SameVersioned(rt, rate, events, i);
      }
    }
  }

  lemma LastVersion(rt: Runtime, rate: uint8, events: seq<Event>)
    requires events != []
    ensures var n := |events| - 1;
      After(rt, rate, events).inDownload ==
      if IsVersionedAt(rt, rate, events, n) then events[n].request.data[..VERSION_LENGTH]
      else After(rt, rate, events[..n]).inDownload
  {
    var n := |events| - 1;
    StepVersion(rt, After(rt, rate, events[..n]), events[n]);
  }

  // In every run the version of the download is that of the last section that came without asking
  // for a response while none was counted; before the first such section there is none.
  lemma {:induction false} VersionHistory(rt: Runtime, rate: uint8, events: seq<Event>, i: nat)
    ensures VersionFrom(rt, rate, events, i) ==>
              After(rt, rate, events).inDownload == events[i].request.data[..VERSION_LENGTH]
    ensures NoVersion(rt, rate, events) ==> After(rt, rate, events).inDownload == []
    decreases |events|
  {
    if events != [] {
      var n := |events| - 1;
      VersionHistory(rt, rate, events[..n], i);
      EarlierVersions(rt, rate, events, i);
      LastVersion(rt, rate, events);
    }
  }

  // A completed download puts that version on standby.
  lemma StandbyVersion(rt: Runtime, rate: uint8, events: seq<Event>, e: Event, i: nat)
    requires Completes(rt, After(rt, rate, events), e)
    ensures VersionFrom(rt, rate, events, i) ==>
              Step(rt, After(rt, rate, events), e).standby == events[i].request.data[..VERSION_LENGTH]
    ensures NoVersion(rt, rate, events) ==> Step(rt, After(rt, rate, events), e).standby == []
  {
    StandbyImage(rt, After(rt, rate, events), e);
    VersionHistory(rt, rate, events, i);
  }

  // ----- when that is the version of the download itself

  // The event adds a section to the image.
  predicate AddsSection(s: Omci, e: Event) {
    Processed(s, e) &&
    match e.request
    case Section(parsed, data) => parsed && (s.received == 0 ==> |data| >= VERSION_LENGTH)
    case SectionWithResponse(parsed, _, _) => parsed
    case _ => false
  }

  predicate AddsSectionAt(rt: Runtime, rate: uint8, events: seq<Event>, i: nat)
    requires i < |events|
  {
    AddsSection(After(rt, rate, events[..i]), events[i])
  }

  // A section that came without asking for a response.
  predicate UnaskedAt(rt: Runtime, rate: uint8, events: seq<Event>, i: nat)
    requires i < |events|
  {
    AddsSectionAt(rt, rate, events, i) && events[i].request.Section?
  }

  // The last download of the run began with event start, and event first is its first section.
  ghost predicate FirstSection(rt: Runtime, rate: uint8, events: seq<Event>, start: nat, first: nat) {
    && start < first < |events|
    && StartsDownloadAt(rt, rate, events, start)
    && (forall j :: start < j < |events| ==> !StartsDownloadAt(rt, rate, events, j))
    && AddsSectionAt(rt, rate, events, first)
    && (forall j :: start < j < first ==> !AddsSectionAt(rt, rate, events, j))
  }

  // The number of sections acknowledged since the last start or abort.
  function LastRestartOf(rt: Runtime, rate: uint8, events: seq<Event>): nat {
    if events == [] then 0
    else
      var n := |events| - 1;
      if RestartsAt(Sections, rt, rate, events, n) then n + 1 else LastRestartOf(rt, rate, events[..n])
  }

  function Acknowledged(rt: Runtime, rate: uint8, events: seq<Event>): nat {
    |CountedSince(Sections, rt, rate, events, LastRestartOf(rt, rate, events))|
  }

  lemma {:induction false} LastRestartIs(rt: Runtime, rate: uint8, events: seq<Event>)
    ensures LastRestart(Sections, rt, rate, events, LastRestartOf(rt, rate, events))
  {
    if events != [] {
      LastRestartIs(rt, rate, events[..|events|-1]);
      SameEarlier(Sections, rt, rate, events);
    }
  }

  // A section opens a count exactly when the acknowledged ones, modulo 2^32, are none.
  lemma ReceivedIsAcknowledged(rt: Runtime, rate: uint8, events: seq<Event>)
    ensures After(rt, rate, events).received as int == Acknowledged(rt, rate, events) % TWO_TO_THE_32
  {
    LastRestartIs(rt, rate, events);
    CountersAreHistory(Sections, rt, rate, events, LastRestartOf(rt, rate, events));
  }

  lemma OneMoreEvent(rt: Runtime, rate: uint8, events: seq<Event>, j: nat)
    requires j < |events|
    ensures After(rt, rate, events[..j+1]) == Step(rt, After(rt, rate, events[..j]), events[j])
  {
    assert events[..j+1][..j] == events[..j];
  }

  lemma {:induction false} NoneUntilFirst(rt: Runtime, rate: uint8, events: seq<Event>, start: nat, first: nat, j: nat)
    requires FirstSection(rt, rate, events, start, first) && start < j <= first
    ensures After(rt, rate, events[..j]).received == 0
    decreases j
  {
    OneMoreEvent(rt, rate, events, j - 1);
    StepCounts(Sections, rt, After(rt, rate, events[..j-1]), events[j-1]);
    if j - 1 > start {
      NoneUntilFirst(rt, rate, events, start, first, j - 1);
      assert !AddsSectionAt(rt, rate, events, j - 1);
    } else {
      assert StartsDownloadAt(rt, rate, events, start);
    }
  }

  // The version is read from the first section of the download exactly when that section did not ask
  // for a response and no later section opened another count.
  lemma DownloadVersion(rt: Runtime, rate: uint8, events: seq<Event>, start: nat, first: nat)
    requires FirstSection(rt, rate, events, start, first)
    ensures VersionFrom(rt, rate, events, first) <==>
      && UnaskedAt(rt, rate, events, first)
      && (forall j :: first < j < |events| && UnaskedAt(rt, rate, events, j) ==>
            Acknowledged(rt, rate, events[..j]) % TWO_TO_THE_32 != 0)
  {
    NoneUntilFirst(rt, rate, events, start, first, first);
    forall j | 0 <= j < |events|
      ensures IsVersionedAt(rt, rate, events, j) <==>
              UnaskedAt(rt, rate, events, j) && Acknowledged(rt, rate, events[..j]) % TWO_TO_THE_32 == 0
    {
      ReceivedIsAcknowledged(rt, rate, events[..j]);
    }
    ReceivedIsAcknowledged(rt, rate, events[..first]);
  }

  // Without a restart, and away from the wrap-around, the count only grows, by one at a time.
  lemma CountGrows(rt: Runtime, s: Omci, e: Event)
    requires !Restarts(Sections, rt, s, e) && s.received as int + 1 < TWO_TO_THE_32
    ensures Step(rt, s, e).received as int == s.received as int + if Counts(Sections, rt, s, e) then 1 else 0
  {
    StepCounts(Sections, rt, s, e);
  }

  lemma {:induction false} SomeAfterFirst(rt: Runtime, rate: uint8, events: seq<Event>, start: nat, first: nat, j: nat)
    requires FirstSection(rt, rate, events, start, first) && first < j <= |events| < TWO_TO_THE_32
    requires UnaskedAt(rt, rate, events, first)
    requires forall i :: start < i < |events| ==> !RestartsAt(Sections, rt, rate, events, i)
    ensures 0 < After(rt, rate, events[..j]).received as int <= j
    decreases j
  {
    OneMoreEvent(rt, rate, events, j - 1);
    assert !RestartsAt(Sections, rt, rate, events, j - 1);
    if j - 1 > first {
      SomeAfterFirst(rt, rate, events, start, first, j - 1);
    } else {
      NoneUntilFirst(rt, rate, events, start, first, first);
    }
    CountGrows(rt, After(rt, rate, events[..j-1]), events[j-1]);
  }

  // Without an abort (and in runs that cannot wrap the count) the first section alone decides.
  lemma UnabortedVersion(rt: Runtime, rate: uint8, events: seq<Event>, start: nat, first: nat)
    requires FirstSection(rt, rate, events, start, first) && |events| < TWO_TO_THE_32
    requires forall i :: start < i < |events| ==> !RestartsAt(Sections, rt, rate, events, i)
    ensures VersionFrom(rt, rate, events, first) <==> events[first].request.Section?
  {
    NoneUntilFirst(rt, rate, events, start, first, first);
    if events[first].request.Section? {
      assert UnaskedAt(rt, rate, events, first);
      forall j | first < j < |events|
        ensures !IsVersionedAt(rt, rate, events, j)
      {
        SomeAfterFirst(rt, rate, events, start, first, j);
      }
    }
  }

  lemma {:induction false} FirstIsPrefix(rt: Runtime, rate: uint8, events: seq<Event>, start: nat, first: nat, n: nat)
    requires FirstSection(rt, rate, events, start, first) && start < n <= |events|
    ensures n <= first ==> SectionsBetween(rt, rate, events, start + 1, n) == []
    ensures first < n ==> events[first].request.data <= SectionsBetween(rt, rate, events, start + 1, n)
    decreases n
  {
    if start + 1 < n {
      FirstIsPrefix(rt, rate, events, start, first, n - 1);
      assert n - 1 < first ==> !AddsSectionAt(rt, rate, events, n - 1);
    }
  }

  // A download puts its own version on standby, the first 14 bytes it sent, if it was read from its
  // first section.
  lemma OwnVersion(rt: Runtime, rate: uint8, events: seq<Event>, start: nat, first: nat, e: Event)
    requires FirstSection(rt, rate, events, start, first) && VersionFrom(rt, rate, events, first)
    requires Completes(rt, After(rt, rate, events), e)
    ensures var s := After(rt, rate, events);
      |s.image.data| >= VERSION_LENGTH && Step(rt, s, e).standby == s.image.data[..VERSION_LENGTH]
  {
    StandbyVersion(rt, rate, events, e, first);
    BufferIsSections(rt, rate, events, start + 1);
    FirstIsPrefix(rt, rate, events, start, first, |events|);
  }

  // After an abort the next section that asks for no response renames the image, although the bytes
  // received before the abort stay where they are.
  lemma AbortRenames(rt: Runtime, s: Omci, abort: Event, section: Event)
    requires var s1 := Step(rt, s, abort);
      && Processed(s, abort) && abort.request.EndDownload? && EndOutcome(rt, s, abort.request) == Aborted
      && AddsSection(s1, section) && section.request.Section?
    ensures var s2 := Step(rt, Step(rt, s, abort), section);
      && |section.request.data| >= VERSION_LENGTH
      && s2.inDownload == section.request.data[..VERSION_LENGTH]
      && s2.image.data == s.image.data + section.request.data
  {
    var s1 := Step(rt, s, abort);
    StepCounts(Sections, rt, s, abort);
    StepVersion(rt, s1, section);
    StepBuffers(rt, s, abort);
    StepBuffers(rt, s1, section);
    assert s.image.data + [] == s.image.data;
  }
}
