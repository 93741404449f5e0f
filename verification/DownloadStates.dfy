/** The states an ONU goes through during a software download, as the history of its requests. */
module DownloadStates {
  import opened MachineIntegers
  import opened Options
  import opened StateMachines
  import opened ByteSlices
  import opened OmciImages
  import opened ImageVersions

  // ----- what an end request says

  // The download is given up: size 0 and all ones for a CRC, with sections received.
  predicate Aborts(s: Omci, q: Request)
    requires q.EndDownload?
  {
    q.parsed && s.received > 0 && q.size == 0 && q.crc == 0xFFFF_FFFF
  }

  // As many sections as announced, and the request is about more bytes than the slice can hold.
  predicate Overruns(s: Omci, q: Request)
    requires q.EndDownload?
  {
    q.parsed && !Aborts(s, q) && s.expected == s.received && q.size as nat > Capacity(s.image)
  }

  // As many sections as announced, and the CRC fits the bytes the request is about.
  predicate Fits(rt: Runtime, s: Omci, q: Request)
    requires q.EndDownload?
  {
    && q.parsed && !Aborts(s, q) && s.expected == s.received && q.size as nat <= Capacity(s.image)
    && ByteReverse(q.crc) == rt.checksum((s.image.data + s.image.spare)[..q.size])
  }

  // Neither: the request cannot be read, sections are missing, or the CRC does not fit.
  predicate Misfits(rt: Runtime, s: Omci, q: Request)
    requires q.EndDownload?
  {
    !Aborts(s, q) && !Overruns(s, q) && !Fits(rt, s, q)
  }

  lemma EndOutcomes(rt: Runtime, s: Omci, q: Request)
    requires q.EndDownload?
    ensures EndOutcome(rt, s, q) == Aborted <==> Aborts(s, q)
    ensures EndOutcome(rt, s, q) == Overrun <==> Overruns(s, q)
    ensures EndOutcome(rt, s, q) == Verified <==> Fits(rt, s, q)
    ensures EndOutcome(rt, s, q) == Rejected <==> Misfits(rt, s, q)
  {
    if q.size as nat <= Capacity(s.image) {
      ByteReverseTwice(rt.checksum((s.image.data + s.image.spare)[..q.size]));
      ByteReverseTwice(q.crc);
    }
  }

  // ----- the state after one event

  function AfterRequest(rt: Runtime, s: Omci, q: Request): OnuState {
    match q
    case StartDownload(_, responded) => if responded then AfterOnuEvent(s.state, OnuEvent.StartDownload) else s.state
    case Section(_, _) => if StoresUnasked(s, q) then AfterOnuEvent(s.state, ProgressDownload) else s.state
    case EndDownload(_, _, _, responded) =>
      if !responded || Overruns(s, q) then s.state
      else AfterOnuEvent(s.state, if Misfits(rt, s, q) then FailDownload else CompleteDownload)
    case ActivateSoftware(_, _, responded) => if responded then AfterOnuEvent(s.state, ActivateImage) else s.state
    case CommitSoftware(_, _, responded) => if responded then AfterOnuEvent(s.state, CommitImage) else s.state
    case _ => s.state
  }

  // A section that did not ask for a response and is stored.
  predicate StoresUnasked(s: Omci, q: Request) {
    q.Section? && q.parsed && (s.received == 0 ==> |q.data| >= VERSION_LENGTH)
  }

  lemma StateAfterEvent(rt: Runtime, s: Omci, e: Event)
    ensures Step(rt, s, e).state ==
            if !s.alive then s.state
            else match e
              case Receive(q) => if Processed(s, e) then AfterRequest(rt, s, q) else s.state
              case PowerCycle => if OnuAccepts(s.state, Disable) then Enabled else s.state
              case Fire(ev) => if ev in IMAGE_EVENTS then s.state else AfterOnuEvent(s.state, ev)
              case Invalidate(_) => s.state
  {
    if Processed(s, e) {
      match e.request
      case Section(_, _) =>
      case EndDownload(_, _, _, _) => EndOutcomes(rt, s, e.request);
      case _ =>
    }
  }

  // The handler panics on exactly two occasions: the first section that is counted is too short to hold
  // a version, or an end request is about more bytes than the slice can hold.
  lemma StepAlive(rt: Runtime, s: Omci, e: Event)
    ensures Step(rt, s, e).alive <==>
      && s.alive
      && !(Processed(s, e) && e.request.Section? && e.request.parsed && s.received == 0 && |e.request.data| < 14)
      && !(Processed(s, e) && e.request.EndDownload? && Overruns(s, e.request))
  {
    if Processed(s, e) {
      match e.request
      case Section(_, _) =>
      case EndDownload(_, _, _, _) => EndOutcomes(rt, s, e.request);
      case _ =>
    }
  }

  const DOWNLOAD_STATES: set<OnuState> :=
    {DownloadStarted, DownloadInProgress, DownloadComplete, DownloadError, ImageActivated, ImageCommitted}

  predicate Starts(s: Omci, e: Event) {
    Processed(s, e) && e.request.StartDownload? && e.request.responded
  }

  predicate Ends(s: Omci, e: Event) {
    Processed(s, e) && e.request.EndDownload? && e.request.responded
  }

  predicate Activates(s: Omci, e: Event) {
    Processed(s, e) && e.request.ActivateSoftware? && e.request.responded
  }

  // The ONU is shut down or powered off and on, or its PON is taken down.
  predicate GoesDown(s: Omci, e: Event) {
    s.alive && e in {Fire(Disable), PowerCycle, Fire(PonDisable)}
  }

  // The event brings the ONU into a state of the download.
  predicate Enters(rt: Runtime, s: Omci, e: Event, x: OnuState) {
    match x
    case DownloadStarted => Starts(s, e) && s.state in {Enabled, DownloadComplete, DownloadError, ImageCommitted}
    case DownloadInProgress => Processed(s, e) && StoresUnasked(s, e.request) && s.state == DownloadStarted
    case DownloadComplete =>
      Ends(s, e) && s.state == DownloadInProgress && (Aborts(s, e.request) || Fits(rt, s, e.request))
    case DownloadError => Ends(s, e) && s.state == DownloadInProgress && Misfits(rt, s, e.request)
    case ImageActivated => Activates(s, e) && s.state == DownloadComplete
    case ImageCommitted =>
      Processed(s, e) && e.request.CommitSoftware? && e.request.responded && s.state == Enabled
    case _ => false
  }

  // The event takes the ONU out of it. While sections are awaited or received, nothing but the download
  // itself does; a completed download stays through a shutdown request, which is refused.
  predicate Leaves(s: Omci, e: Event, x: OnuState) {
    match x
    case DownloadStarted => Processed(s, e) && StoresUnasked(s, e.request)
    case DownloadInProgress => Ends(s, e) && !Overruns(s, e.request)
    case DownloadComplete => Starts(s, e) || Activates(s, e) || (s.alive && e == Fire(PonDisable))
    case DownloadError => Starts(s, e) || GoesDown(s, e)
    case ImageActivated => GoesDown(s, e)
    case ImageCommitted => Starts(s, e) || GoesDown(s, e)
    case _ => false
  }

  lemma EndStates(rt: Runtime, s: Omci, e: Event, x: OnuState)
    requires x in DOWNLOAD_STATES && Processed(s, e) && e.request.EndDownload?
    ensures AfterRequest(rt, s, e.request) == x <==> Enters(rt, s, e, x) || (s.state == x && !Leaves(s, e, x))
  {
  }

  lemma RequestStates(rt: Runtime, s: Omci, e: Event, x: OnuState)
    requires x in DOWNLOAD_STATES && Processed(s, e)
    ensures AfterRequest(rt, s, e.request) == x <==> Enters(rt, s, e, x) || (s.state == x && !Leaves(s, e, x))
  {
    if e.request.EndDownload? {
      EndStates(rt, s, e, x);
    }
  }

  lemma StepStates(rt: Runtime, s: Omci, e: Event, x: OnuState)
    requires x in DOWNLOAD_STATES
    ensures Step(rt, s, e).state == x <==> Enters(rt, s, e, x) || (s.state == x && !Leaves(s, e, x))
  {
    StateAfterEvent(rt, s, e);
    if Processed(s, e) {
      RequestStates(rt, s, e, x);
    }
  }

  // ----- the same over runs

  predicate EntersAt(rt: Runtime, rate: uint8, events: seq<Event>, i: nat, x: OnuState)
    requires i < |events|
  {
    Enters(rt, After(rt, rate, events[..i]), events[i], x)
  }

  predicate LeavesAt(rt: Runtime, rate: uint8, events: seq<Event>, i: nat, x: OnuState)
    requires i < |events|
  {
    Leaves(After(rt, rate, events[..i]), events[i], x)
  }

  ghost predicate NotLeftSince(rt: Runtime, rate: uint8, events: seq<Event>, from: nat, x: OnuState) {
    forall j :: from <= j < |events| ==> !LeavesAt(rt, rate, events, j, x)
  }

  // Some event brought the ONU there and no later one took it away.
  ghost predicate EnteredAndNotLeft(rt: Runtime, rate: uint8, events: seq<Event>, x: OnuState) {
    exists i :: 0 <= i < |events| && EntersAt(rt, rate, events, i, x) && NotLeftSince(rt, rate, events, i + 1, x)
  }

  lemma SameStates(rt: Runtime, rate: uint8, events: seq<Event>, x: OnuState)
    requires events != []
    ensures var before := events[..|events|-1];
      forall i :: 0 <= i < |before| ==>
        && EntersAt(rt, rate, before, i, x) == EntersAt(rt, rate, events, i, x)
        && LeavesAt(rt, rate, before, i, x) == LeavesAt(rt, rate, events, i, x)
  {
    var before := events[..|events|-1];
    assert forall i :: 0 <= i < |before| ==> before[..i] == events[..i] && before[i] == events[i];
  }

  // In every run the ONU is in a state of the download exactly when an event brought it there and no
  // later one took it away.
  lemma {:induction false} StateHistory(rt: Runtime, rate: uint8, events: seq<Event>, x: OnuState)
    requires x in DOWNLOAD_STATES
    ensures After(rt, rate, events).state == x <==> EnteredAndNotLeft(rt, rate, events, x)
  {
    if events != [] {
      var n := |events| - 1;
      StateHistory(rt, rate, events[..n], x);
      StepStates(rt, After(rt, rate, events[..n]), events[n], x);
      HistoryGrows(rt, rate, events, x);
    }
  }

  lemma HistoryGrows(rt: Runtime, rate: uint8, events: seq<Event>, x: OnuState)
    requires events != []
    ensures var n := |events| - 1;
      EnteredAndNotLeft(rt, rate, events, x) <==>
      EntersAt(rt, rate, events, n, x) || (EnteredAndNotLeft(rt, rate, events[..n], x) && !LeavesAt(rt, rate, events, n, x))
  {
    var n := |events| - 1;
    SameStates(rt, rate, events, x);
    assert NotLeftSince(rt, rate, events, n + 1, x);
    forall from: nat | from <= n
      ensures NotLeftSince(rt, rate, events, from, x) <==>
              NotLeftSince(rt, rate, events[..n], from, x) && !LeavesAt(rt, rate, events, n, x)
    {
    }
  }

  // An aborted download counts as completed: its old standby image can be activated next.
  lemma AbortLooksComplete(rt: Runtime, s: Omci, abort: Event, activate: Event)
    requires Processed(s, abort) && abort.request.EndDownload? && abort.request.responded
    requires Aborts(s, abort.request) && s.state == DownloadInProgress
    ensures var s1 := Step(rt, s, abort);
      && s1.state == DownloadComplete && s1.standby == s.standby
      && (Processed(s1, activate) && activate.request.ActivateSoftware? && activate.request.responded && activate.request.parsed ==>
            var s2 := Step(rt, s1, activate); s2.state == ImageActivated && s2.active == s.standby && s2.standby == s1.active)
  {
    var s1 := Step(rt, s, abort);
    StepStates(rt, s, abort, DownloadComplete);
    StepStates(rt, s1, activate, ImageActivated);
    StandbyImage(rt, s, abort);
    StandbyImage(rt, s1, activate);
    ActiveAndCommitted(rt, s, abort);
    ActiveAndCommitted(rt, s1, activate);
  }

  // ----- downloads in which every section asks for a response

  predicate IsUnasked(e: Event) {
    e.Receive? && e.request.Section?
  }

  lemma {:induction false} NothingInProgress(rt: Runtime, s: Omci, more: seq<Event>)
    requires s.state !in {DownloadInProgress, DownloadComplete}
    requires forall i :: 0 <= i < |more| ==> !IsUnasked(more[i])
    ensures Run(rt, s, more).state !in {DownloadInProgress, DownloadComplete}
    ensures Run(rt, s, more).inDownload == s.inDownload
    decreases |more|
  {
    if more != [] {
      var n := |more| - 1;
      var s' := Run(rt, s, more[..n]);
      NothingInProgress(rt, s, more[..n]);
      StepVersion(rt, s', more[n]);
      StepStates(rt, s', more[n], DownloadComplete);
      StepStates(rt, s', more[n], DownloadInProgress);
    }
  }

  // However a run goes on, as long as every section asks for a response no download gets past
  // image_download_started and no version is read: a matching end puts the version of an earlier
  // download on standby, and an activation is refused by the state machine yet swaps the images.
  lemma AskedOnly(rt: Runtime, s: Omci, more: seq<Event>, e: Event)
    requires s.state !in {DownloadInProgress, DownloadComplete}
    requires forall i :: 0 <= i < |more| ==> !IsUnasked(more[i])
    ensures var s1 := Run(rt, s, more);
      var s2 := Step(rt, s1, e);
      && (Completes(rt, s1, e) ==> s2.state == s1.state && s2.standby == s.inDownload)
      && (Processed(s1, e) && e.request.ActivateSoftware? && e.request.responded && e.request.parsed ==>
            s2.state == s1.state && s2.active == s1.standby && s2.standby == s1.active)
  {
    var s1 := Run(rt, s, more);
    NothingInProgress(rt, s, more);
    StandbyImage(rt, s1, e);
    ActiveAndCommitted(rt, s1, e);
    StateAfterEvent(rt, s1, e);
  }
}
