/** The event tables of the device state machines.

    An event is accepted when the current state is one of its sources; the machine then moves to
    the destination and runs its entry callback. Otherwise the event returns an error and changes
    nothing, which is what None stands for below. */
module StateMachines {
  import opened Options

  datatype OltState = OltCreated | OltInitialized | OltEnabled | OltDisabled | OltDeleted
  datatype OltEvent = OltInitialize | OltEnable | OltDisable | OltDelete

  function NextOlt(s: OltState, e: OltEvent): Option<OltState> {
    match e
    case OltInitialize => if s in {OltCreated, OltDeleted} then Some(OltInitialized) else None
    case OltEnable => if s in {OltInitialized, OltDisabled} then Some(OltEnabled) else None
    case OltDisable => if s == OltEnabled then Some(OltDisabled) else None
    case OltDelete => if s in {OltDisabled, OltEnabled} then Some(OltDeleted) else None
  }

  datatype PonState = PonCreated | PonEnabled | PonDisabled

  datatype OnuState =
    | Created
    | Initialized
    | Discovered
    | Enabled
    | Disabled
    | PonDown // "pon_disabled"
    | DownloadStarted
    | DownloadInProgress
    | DownloadComplete
    | DownloadError
    | ImageActivated
    | ImageCommitted
    | EapolFlowSent // BBR only
    | DhcpFlowSent // BBR only

  datatype OnuEvent =
    | Initialize
    | Discover
    | Enable
    | Disable
    | PonDisable
    | StartDownload
    | ProgressDownload
    | CompleteDownload
    | FailDownload
    | ActivateImage
    | CommitImage
    | SendEapolFlow
    | SendDhcpFlow

  predicate OnuAccepts(s: OnuState, e: OnuEvent) {
    match e
    case Initialize => s in {Created, Disabled, PonDown}
    case Discover => s == Initialized
    case Enable => s in {Discovered, PonDown}
    case Disable => s in {Enabled, PonDown, ImageActivated, DownloadError, ImageCommitted}
    case PonDisable => s in {Enabled, ImageActivated, DownloadError, ImageCommitted, DownloadComplete}
    case StartDownload => s in {Enabled, DownloadComplete, DownloadError, ImageCommitted}
    case ProgressDownload => s == DownloadStarted
    case CompleteDownload => s == DownloadInProgress
    case FailDownload => s == DownloadInProgress
    case ActivateImage => s == DownloadComplete
    case CommitImage => s == Enabled
    case SendEapolFlow => s == Initialized
    case SendDhcpFlow => s == EapolFlowSent
  }

  function OnuTarget(e: OnuEvent): OnuState {
    match e
    case Initialize => Initialized
    case Discover => Discovered
    case Enable => Enabled
    case Disable => Disabled
    case PonDisable => PonDown
    case StartDownload => DownloadStarted
    case ProgressDownload => DownloadInProgress
    case CompleteDownload => DownloadComplete
    case FailDownload => DownloadError
    case ActivateImage => ImageActivated
    case CommitImage => ImageCommitted
    case SendEapolFlow => EapolFlowSent
    case SendDhcpFlow => DhcpFlowSent
  }

  // The state after an event, accepted or not.
  function AfterOnuEvent(s: OnuState, e: OnuEvent): OnuState {
    if OnuAccepts(s, e) then OnuTarget(e) else s
  }

  // ONUs that the OLT has activated: enabled, or in some phase of a software upgrade.
  predicate Active(s: OnuState) {
    s in {Enabled, DownloadStarted, DownloadInProgress, DownloadComplete, DownloadError, ImageActivated, ImageCommitted}
  }

  datatype ServiceState = ServiceCreated | ServiceInitialized | ServiceDisabled

  datatype EapolState =
    | EapolCreated
    | AuthStarted
    | StartSent
    | IdentitySent
    | ChallengeSent
    | SuccessReceived
    | AuthFailed

  // EapolStart is start_auth; the other events are named after the state they lead to.
  datatype EapolEvent = EapolStart | SendStart | SendIdentity | SendChallenge | ReceiveSuccess | FailAuth

  function NextEapol(s: EapolState, e: EapolEvent): Option<EapolState> {
    match e
    case EapolStart => if s in {EapolCreated, SuccessReceived, AuthFailed} then Some(AuthStarted) else None
    case SendStart => if s == AuthStarted then Some(StartSent) else None
    case SendIdentity => if s == StartSent then Some(IdentitySent) else None
    case SendChallenge => if s == IdentitySent then Some(ChallengeSent) else None
    case ReceiveSuccess => if s == ChallengeSent then Some(SuccessReceived) else None
    case FailAuth => if s in {AuthStarted, StartSent, IdentitySent, ChallengeSent} then Some(AuthFailed) else None
  }

  datatype DhcpState =
    | DhcpCreated
    | DhcpStarted
    | DiscoverySent
    | RequestSent
    | AckReceived
    | DhcpFailed

  datatype DhcpEvent = DhcpStart | SendDiscovery | SendRequest | ReceiveAck | FailDhcp

  function NextDhcp(s: DhcpState, e: DhcpEvent): Option<DhcpState> {
    match e
    case DhcpStart => if s in {DhcpCreated, AckReceived, DhcpFailed} then Some(DhcpStarted) else None
    case SendDiscovery => if s == DhcpStarted then Some(DiscoverySent) else None
    case SendRequest => if s == DiscoverySent then Some(RequestSent) else None
    case ReceiveAck => if s == RequestSent then Some(AckReceived) else None
    case FailDhcp => if s in {DhcpStarted, DiscoverySent, RequestSent} then Some(DhcpFailed) else None
  }

  // ----- the same tables, read by state

  lemma OnuEventsByState(s: OnuState, e: OnuEvent)
    ensures OnuAccepts(s, e) <==>
      match s
      case Created => e == Initialize
      case Initialized => e in {Discover, SendEapolFlow}
      case Discovered => e == Enable
      case Enabled => e in {Disable, PonDisable, StartDownload, CommitImage}
      case Disabled => e == Initialize
      case PonDown => e in {Initialize, Enable, Disable}
      case DownloadStarted => e == ProgressDownload
      case DownloadInProgress => e in {CompleteDownload, FailDownload}
      case DownloadComplete => e in {PonDisable, StartDownload, ActivateImage}
      case DownloadError => e in {Disable, PonDisable, StartDownload}
      case ImageActivated => e in {Disable, PonDisable}
      case ImageCommitted => e in {Disable, PonDisable, StartDownload}
      case EapolFlowSent => e == SendDhcpFlow
      case DhcpFlowSent => false
  {
  }

  // A start is accepted at the beginning and at the end of an exchange; a failure at any time between.
  lemma EapolByState(s: EapolState)
    ensures NextEapol(s, EapolStart).Some? <==> s in {EapolCreated, SuccessReceived, AuthFailed}
    ensures NextEapol(s, FailAuth).Some? <==> NextEapol(s, EapolStart).None?
    ensures NextEapol(s, EapolStart) in {None, Some(AuthStarted)} && NextEapol(s, FailAuth) in {None, Some(AuthFailed)}
  {
  }

  lemma DhcpByState(s: DhcpState)
    ensures NextDhcp(s, DhcpStart).Some? <==> s in {DhcpCreated, AckReceived, DhcpFailed}
    ensures NextDhcp(s, FailDhcp).Some? <==> NextDhcp(s, DhcpStart).None?
    ensures NextDhcp(s, DhcpStart) in {None, Some(DhcpStarted)} && NextDhcp(s, FailDhcp) in {None, Some(DhcpFailed)}
  {
  }
}
