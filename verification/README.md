# BBSim in Dafny

BBSim simulates a passive optical network: an OLT with its PON ports, the ONUs on each PON, and the
UNIs and services of each ONU. This project models its stateful core and proves what holds over every
run of it.

`dafny verify dfyconfig.toml` checks everything.

| file | what it is about |
|---|---|
| `MachineIntegers.dfy` | 8, 16, 32 and 64-bit integers, conversions and wrap-around |
| `Options.dfy`, `ByteSlices.dfy` | values that may be missing; byte slices with length and capacity |
| `StateMachines.dfy` | the event tables of the OLT, ONU, EAPOL and DHCP state machines |
| `OpenoltFlows.dfy`, `FlowLists.dfy` | the fields of a flow, and lists from which one occurrence is removed |
| `FlowResources.dfy` | the five-level nested maps of GEM ports and alloc IDs, and the sets of entries they stand for |
| `FlowAllocator.dfy` | FlowAdd, FlowRemove and ActivateOnu: exclusive resources, and tables as their history |
| `FlowAdmission.dfy` | the allocator and the ONU states together: when FlowAdd meets an ONU without maps |
| `PonLifecycle.dfy`, `PonDevices.dfy` | PON and ONU state machines driving each other, and the per-PON tables |
| `OmciImages.dfy` | the OMCI handler: response rate, MIB data sync, the image as its sections |
| `ImageVersions.dfy`, `DownloadStates.dfy` | which version a download puts on standby, and the states it goes through |
| `UpgradeCycles.dfy`, `OmciHandler.dfy` | upgrades in order, and the download as an object |
| `ServiceChain.dfy`, `ServiceDevices.dfy` | ONU, UNIs and services; EAPOL and DHCP restarts |
| `OnuChannels.dfy` | creation and closing of the ONU message channels |
| `FlowIndex.dfy` | the flow map, the flow keys of the ONUs and the per-ONU listing |
| `PonsConfig.dfy` | validation, lookup and defaults of the PON configuration |
| `TagAllocation.dfy` | C-tags and S-tags over the construction of PONs, ONUs and UNIs |
| `DmiInventory.dfy` | the hardware inventory tree and transceiver plugging |

Each part has the same shape. A datatype holds the state and `Step` says what one call or event does
to it; `Run` folds `Step` over any sequence of events. Classes update the state in place the way the
program does, and their contracts tie the view after a method to `Step` of the view before. The
theorems are about every `Run`. Where a promise of the program turned out false, a lemma gives the
condition under which it holds, in both directions, and another shows the failure.

How the program is read:

- An event of a state machine is accepted if and only if the current state is one of its sources; it
  then moves to the destination and runs its callback. Otherwise it returns an error and changes
  nothing. An event with its callbacks is one step, and a message is handled when it is delivered.
- A gRPC call is one step. FlowAdd takes a lock for validation and another for storing, so the
  statements about it are about calls that do not overlap.
- A run-time panic (a write into a map that was never created, a slice out of range, a nil device)
  makes `alive` false. A send on a nil channel blocks for ever; the model reports it as blocked.
- The order in which Go ranges over a map is arbitrary: the loops pick any remaining key.

Where code and documentation disagree, the model follows the code: the comment above `validateFlow`
speaks of other ONUs and UNIs, the code looks at other ONUs only (`ValidationIgnoresOwnPorts`,
`PortsCanShare`).

What the theorems show that the comments do not say:

- An aborted download is answered with success and moves the ONU to `image_download_completed`, so the
  old standby image can be activated next (`StateHistory`, `AbortLooksComplete`).
- The version of an image is that of the last section that came without asking for a response while
  none was counted. It is the version of the download itself exactly under the condition of
  `DownloadVersion`; `AskedDownload` and `AbortedDownload` are inputs where it is not.
- An end request may name more bytes than were received. Up to the capacity of the slice the checksum
  covers zeros; past it the program panics (`EndIsExact`).
- A flow ID that is added again before it was removed breaks the listing of an ONU, except where the
  condition of `AddIsProper` holds (`ImproperAddBreaks`).
- FlowAdd panics for an ONU that is discovered but not activated, and for every ONU after an OLT delete
  until it is activated again (`PanicIsExact`, `DiscoveredOnuPanics`, `DeletedOltPanics`).

## Model

| member | source | states |
|---|---|---|
| `FlowResources.StoredEntries` | internal/bbsim/devices/olt.go:1840-1869 | storing along the full path of nested maps adds exactly one (pon, onu, port, resource, flow) entry to the set of entries and leaves no resource without flows |
| `FlowResources.FreedEntries` | internal/bbsim/devices/olt.go:1891-1931 | the nested table after the sweep holds exactly the entries of other flows, lists no resource without a flow, and keeps every ONU |
| `FlowResources.OnuResetEntries` | internal/bbsim/devices/olt.go:1009-1010 | activating an ONU drops exactly the entries below that PON and ONU |
| `FlowResources.StoreThenFree` | internal/bbsim/devices/olt.go:1807-1931 | storing an entry of a fresh flow and freeing that flow restores the set of entries; the maps themselves are restored if and only if the port was listed before |
| `FlowResources.ResourceTable.Store` | internal/bbsim/devices/olt.go:1840-1869 | the step-by-step creation of missing levels ends in the one-entry extension, on maps and on entries |
| `FlowResources.ResourceTable.IsUsedElsewhere` | internal/bbsim/devices/olt.go:1936-1977 | the nested search answers true if and only if some other ONU of the PON lists one of the resources |
| `FlowResources.ResourceTable.Free` | internal/bbsim/devices/olt.go:1891-1931 | deleting while iterating, in any iteration order, equals filtering out the flow; no resource is left without flows |
| `FlowResources.ResourceTable.FreeOnPon` | internal/bbsim/devices/olt.go:1913-1930 | one round of the outermost loop changes that PON only, to its filtered form |
| `FlowResources.ResourceTable.FreeOnOnu` | internal/bbsim/devices/olt.go:1914-1929 | one round over an ONU changes that ONU only, to its filtered form |
| `FlowResources.ResourceTable.FreeOnPort` | internal/bbsim/devices/olt.go:1915-1928 | one round over a port deletes the flow from every resource and every resource it leaves without flows |
| `FlowResources.ResourceTable.FreeOnResource` | internal/bbsim/devices/olt.go:1916-1927 | one round over a resource removes the flow, and the resource exactly when the flow was its only one |
| `FlowAllocator.ValidationIsExact` | internal/bbsim/devices/olt.go:1936-1977 | on reachable tables validation refuses a flow if and only if storing it would put a GEM port or an alloc ID below two ONUs of a PON |
| `FlowAllocator.TableValidationIsExact` | internal/bbsim/devices/olt.go:1936-1977 | the same for one table and any set of resources |
| `FlowAllocator.StepKeepsInvariant` | internal/bbsim/devices/olt.go:1180-1309 | every call keeps: each resource of a PON below at most one ONU, no resource without flows, the same PONs and ONUs in both tables |
| `FlowAllocator.ResourcesAreExclusive` | internal/bbsim/devices/olt.go:1262-1275 | in every run of ActivateOnu, FlowAdd, FlowRemove and OLT transitions, each GEM port and each alloc ID of a PON belongs to one ONU |
| `FlowAllocator.ValidationIgnoresOwnPorts` | internal/bbsim/devices/olt.go:1933-1935 | a valid flow meets the condition of the comment above validateFlow (no other ONU or UNI uses the resource) if and only if no other port of its own ONU lists one of its resources |
| `FlowAllocator.PortsCanShare` | internal/bbsim/devices/olt.go:1936-1977 | after any accepted flow the same flow on another port of its ONU is accepted too, so the commented condition is false of the code |
| `FlowAllocator.FlowAddStores` | internal/bbsim/devices/olt.go:1776-1889 | an accepted FlowAdd adds to each table exactly the entries made of the PON and ONU its signed fields read as, its port, its ID and its resources: its alloc ID, and the signed reading of every value of its p-bit map if replicated or else its GEM port |
| `FlowAllocator.FlowAddOutcomes` | internal/bbsim/devices/olt.go:1200-1275 | the outcome of every FlowAdd on the fields of the flow: OLT and multicast flows are ignored; a flow for an ONU that is missing or down, or with a GEM port or alloc ID that another ONU of its PON lists, is refused; a missing PON, or an ONU without maps, panics; what is ignored or refused changes nothing |
| `FlowAllocator.StepFacts` | internal/bbsim/devices/olt.go:1004-1309 | what one call does to any entry and to the maps of any ONU: an accepted FlowAdd stores, ActivateOnu makes maps and drops the entries below them, removal drops the flow, delete and initialize drop everything, nothing else changes |
| `FlowAllocator.AddThenRemove` | internal/bbsim/devices/olt.go:1262-1309 | FlowAdd of a flow ID that no entry carries, with one or several GEM ports, accepted or not, followed by FlowRemove restores the set of entries of each table |
| `FlowAllocator.TablesAreTheirHistory` | internal/bbsim/devices/olt.go:1004-1309 | in every run an entry is in a table if and only if an accepted FlowAdd stored it and since then its flow was not removed, its ONU not activated again and the OLT neither deleted nor initialized; an ONU has its maps if and only if it was activated and the OLT neither deleted nor initialized since |
| `FlowAllocator.PanicIsExact` | internal/bbsim/devices/olt.go:1274-1275 | in every run FlowAdd of an admitted flow panics if and only if the flow is valid and the ONU ID was not activated on that PON since the last OLT delete or initialize |
| `FlowAllocator.OltDevice.constructor` | internal/bbsim/devices/olt.go:226-230 | a new OLT has an empty map per PON in both tables and is initialized |
| `FlowAllocator.OltDevice.ValidateFlow` | internal/bbsim/devices/olt.go:1936-1977 | answers true if and only if no other ONU of the PON its signed field reads as lists its alloc ID, its GEM port, or, if replicated, a value of its p-bit map |
| `FlowAllocator.OltDevice.StoreGemPortIdByFlow` | internal/bbsim/devices/olt.go:1871-1889 | in any iteration order, adds exactly one entry per value of the p-bit map of a replicated flow, or the one of its GEM port |
| `FlowAllocator.OltDevice.StoreAllocId` | internal/bbsim/devices/olt.go:1776-1805 | stores the one alloc ID entry of the flow |
| `FlowAllocator.OltDevice.FlowAdd` | internal/bbsim/devices/olt.go:1200-1289 | outcome and new tables for every flow: OLT and multicast flows are ignored, refused flows change nothing, a missing PON or ONU map panics, an accepted flow is stored in both tables |
| `FlowAllocator.OltDevice.FlowRemove` | internal/bbsim/devices/olt.go:1308-1309 | frees the flow in both tables, whoever it belongs to |
| `FlowAdmission.StepKeepsMaps` | internal/bbsim/devices/olt.go:1004-1027 | every event of the OLT, its PONs and ONUs other than an OLT delete keeps: an ONU that is active, disabled or below a disabled PON has its maps |
| `FlowAdmission.EnabledOnusAreMapped` | internal/bbsim/devices/olt.go:1004-1027 | the same in every run without an OLT delete |
| `FlowAdmission.ActiveOnusTakeFlows` | internal/bbsim/devices/olt.go:1221-1275 | so in every such run FlowAdd for an active ONU does not panic |
| `FlowAdmission.DownOnuRefuses` | internal/bbsim/devices/olt.go:1243-1252 | a flow for an ONU that is disabled or below a disabled PON is refused and changes nothing |
| `FlowAdmission.MissingOnuRefuses` | internal/bbsim/devices/olt.go:1229-1237 | so is a flow for an ONU ID that no ONU of the PON has |
| `FlowAdmission.OnuAfter` | internal/bbsim/devices/olt.go:1004-1027 | what every event of the OLT does to the state of an ONU: nothing unless it is for that ONU or its PON |
| `FlowAdmission.DeleteClearsPons` | internal/bbsim/devices/olt.go:1991-1996 | an OLT delete empties the three tables of every PON and leaves the ONUs in their states |
| `FlowAdmission.DiscoveredOnuPanics` | internal/bbsim/devices/olt.go:1243-1275 | a flow for an ONU that is discovered and not yet activated passes the state check and panics |
| `FlowAdmission.DeletedOltPanics` | internal/bbsim/devices/olt.go:1981-1989 | after an OLT delete and initialize every admitted flow panics, whatever the state of its ONU |
| `FlowAdmission.FindById` | internal/bbsim/devices/pon.go:213-221 | the first ONU of the PON with the ID, or none if there is none |
| `PonLifecycle.SendLocal` | internal/bbsim/devices/onu.go:190-322 | an ONU event changes no other ONU, not the ID, follows the event table, and keeps OperState in agreement with InternalState |
| `PonLifecycle.CascadeStates` | internal/bbsim/devices/pon.go:91-176 | the loop over the ONUs of a PON that goes up or down gives each ONU the state of the summary table and touches no ONU it has not reached |
| `PonLifecycle.StepKeepsStates` | internal/bbsim/devices/pon.go:84-178 | every event keeps: OperState up if and only if neither created nor disabled, and pon_disabled only below a disabled PON |
| `PonLifecycle.LifecycleInvariant` | internal/bbsim/devices/helpers.go:56-69 | the same in every run, in every activation mode |
| `PonLifecycle.PonStates` | internal/bbsim/devices/pon.go:84-89 | what every event does to the state of the PON, with or without ONUs |
| `PonLifecycle.ActivationIsProper` | internal/bbsim/devices/olt.go:1019-1027 | ActivateOnu keeps the table exactly the map from ID to ONU of the active ONUs if and only if an active ONU keeps its ID and an ONU that becomes active does not get the ID of another active one |
| `PonLifecycle.ClashBreaks` | internal/bbsim/devices/onu.go:243-255 | while two ONUs that are active or below a disabled PON share an ID, one shutdown or two enables make the table wrong |
| `PonLifecycle.SendIds` | internal/bbsim/devices/onu.go:243-322 | every ONU event keeps a sound ID table sound and a complete one complete, provided a discovered ONU is not enabled under an ID in use |
| `PonLifecycle.CascadeIds` | internal/bbsim/devices/pon.go:91-176 | so does a whole PON cascade, without any proviso |
| `PonLifecycle.StepIds` | internal/bbsim/devices/onu.go:243-400 | every event of a proper run keeps the table sound, and complete unless the OLT is deleted |
| `PonLifecycle.OnuIdTable` | internal/bbsim/devices/pon.go:234-263 | in every run in which active ONUs keep their IDs and no ONU enters the table under an ID that another one has there or gets back there, AllocatedOnuIds is exactly the map from ID to ONU of the active ONUs, and after an OLT delete always a part of it |
| `PonLifecycle.FreshRunsAreProper` | internal/bbsim/devices/olt.go:1019-1027 | runs whose activations go to inactive ONUs with IDs no other ONU of the PON has are such runs |
| `PonLifecycle.PonBounce` | internal/bbsim/devices/pon.go:108-176 | disable then enable, with ONUs activated by the PON: every ONU that accepts pon_disable ends enabled, disabled and initialized ones end discovered, the ID table is the same, and exactly the GEM port and alloc ID entries of the former are gone |
| `PonLifecycle.PowerOnIs` | internal/bbsim/devices/onu.go:696-753 | powering on discovers an ONU that is created or initialized, enables one that is disabled and leaves any other; only a disabled one can get its ID recorded, the other tables and ONUs stay |
| `PonLifecycle.RebootReturns` | internal/bbsim/devices/onu.go:1479-1498 | a reboot that is not refused ends enabled with the ONU ID recorded, keeps the ID table of an active ONU, and drops exactly its own GEM port and alloc ID entries |
| `PonLifecycle.StepOwners` | internal/bbsim/devices/onu.go:910-1015 | which event records a GEM port or an alloc ID for an ONU and which removes it; a create of a recorded GEM port and a set for an entity that has an alloc ID change nothing |
| `PonLifecycle.OwnershipIsHistory` | internal/bbsim/devices/pon.go:265-347 | in every run a GEM port or an alloc ID is recorded for an ONU if and only if the accepted request that recorded it was not undone since; an alloc ID is kept under the ONU ID of that time, and whoever has that ID now can remove it |
| `PonLifecycle.MulticastIsFree` | internal/bbsim/devices/onu.go:966-968 | in every run GEM 4069 is not recorded |
| `PonDevices.OnuDevice.constructor` | internal/bbsim/devices/onu.go:152-165 | a new ONU is created, with its OperState down |
| `PonDevices.OnuDevice.CleanupState` | internal/bbsim/devices/onu.go:395-405 | removes the ONU ID and exactly this ONU's GEM port and alloc ID entries from its PON |
| `PonDevices.OnuDevice.FireEvent` | internal/bbsim/devices/onu.go:190-322 | accepted if and only if the state is a source of the event; the new state of the whole PON, other ONUs and tables included |
| `PonDevices.OnuDevice.PowerOn` | internal/bbsim/devices/onu.go:696-753 | succeeds if and only if the ONU is created, initialized or disabled; it ends discovered, or enabled from disabled; the GEM port and alloc ID tables and the other ONUs stay, and only from disabled can the ID be recorded |
| `PonDevices.OnuDevice.Reboot` | internal/bbsim/devices/onu.go:1479-1498 | succeeds if and only if the shutdown event is accepted, and is then a shutdown followed by a power-on |
| `PonDevices.OnuDevice.CreateGemPort` | internal/bbsim/devices/onu.go:963-1002 | refused if and only if the GEM port is recorded already, which leaves the table alone; otherwise the ONU owns it, the multicast port excepted |
| `PonDevices.OnuDevice.ResetMib` | internal/bbsim/devices/onu.go:828-834 | removes exactly this ONU's entries from both tables |
| `PonDevices.OnuDevice.Activate` | internal/bbsim/devices/olt.go:1019-1027 | takes the new ID and fires enable; the ID stays even when the event is refused |
| `PonDevices.PonPort.RemoveGemPortsFor` | internal/bbsim/devices/pon.go:279-287 | the loop with deletion equals filtering out the owner |
| `PonDevices.PonPort.RemoveAllocIdsFor` | internal/bbsim/devices/pon.go:322-330 | the loop with deletion equals filtering out the owner |
| `PonDevices.PonPort.Disable` | internal/bbsim/devices/pon.go:167-176 | a disabled or new PON refuses; otherwise all ONUs but initialized and disabled ones are told |
| `PonDevices.PonPort.Enable` | internal/bbsim/devices/pon.go:91-166 | an enabled PON refuses; otherwise the cascade over its ONUs in the mode and from the state it had |
| `PonDevices.PonPort.EnableOne` | internal/bbsim/devices/pon.go:96-163 | the events one ONU gets, by activation mode, previous PON state and ONU state; a failed initialization skips the discovery |
| `OmciImages.GateCounts` | internal/bbsim/devices/onu.go:805-818 | in every run exactly the first rate requests of every ten delivered ones were processed |
| `OmciImages.GateLetsThrough` | internal/bbsim/devices/onu.go:805-818 | of any ten requests delivered one after the other in a run, whatever happens before and between them, exactly min(rate, 10) are processed |
| `OmciImages.StepCounts` | internal/bbsim/devices/onu.go:828-1221 | when an event restarts or increments MibDataSync (modulo 256) or the received sections (modulo 2^32), and that nothing else changes them but an invalidation |
| `OmciImages.CountersAreHistory` | internal/bbsim/devices/onu.go:828-1221 | in every run MibDataSync is, modulo 256 and without invalidation, the number of requests answered with success since the last MIB reset, and received sections is, modulo 2^32, the number acknowledged since the last start or abort |
| `OmciImages.StepImage` | internal/bbsim/devices/onu.go:1066-1141 | a start replaces the image slice by an empty one; otherwise it only grows, by appending |
| `OmciImages.SpareIsZero` | internal/bbsim/devices/onu.go:1069 | in every run the bytes between the length and the capacity of the image slice are zero |
| `OmciImages.BufferIsSections` | internal/bbsim/devices/onu.go:1091-1141 | in every run the image is the concatenation of the sections since the last start |
| `ByteSlices.PrefixIsPadded` | internal/bbsim/devices/onu.go:1549 | slicing a slice with zero spare bytes yields its elements cut, or made up with zeros, to the size, and fails past the capacity |
| `ByteSlices.ByteSlice.Append` | internal/bbsim/devices/onu.go:1104 | the loops that write behind the elements, or move them to a larger array, append exactly the new bytes and leave zeros behind them |
| `ByteSlices.ByteSlice.Take` | internal/bbsim/devices/onu.go:1549 | slicing fails if and only if it passes the capacity; behind the length it yields zeros |
| `OmciImages.ByteReverse` | internal/bbsim/devices/onu.go:1550-1553 | byte i of the result is byte 3 - i of the word |
| `OmciHandler.PowerCycleIsReboot` | internal/bbsim/devices/onu.go:1205-1215 | the power cycle in the upgrade model does to the ONU state what the reboot of the PON model does |
| `ImageVersions.ByteReverseTwice` | internal/bbsim/devices/onu.go:1550-1553 | writing little endian and reading big endian is its own inverse |
| `ImageVersions.EndIsExact` | internal/bbsim/devices/onu.go:1537-1563 | in every run, once all sections were received: an end request panics if and only if its size passes the capacity of the slice, and is accepted if and only if its CRC is the byte reversal of the checksum of the received bytes cut, or made up with zeros, to that size |
| `ImageVersions.StandbyImage` | internal/bbsim/devices/onu.go:1501-1573 | the standby version changes on exactly three occasions: a verified end, an activation, a commit |
| `ImageVersions.ActiveAndCommitted` | internal/bbsim/devices/onu.go:1187-1232 | only an activation and a commit change the active and the committed image: an activation makes the standby image active under the entity it names, a commit keeps the active one under the entity it names |
| `ImageVersions.ExpectedSections` | internal/bbsim/devices/onu.go:1070 | the number of sections to expect is that of the last processed start |
| `ImageVersions.InvalidationShows` | internal/bbsim/devices/onu.go:1909-1920 | invalidating the MIB data sync always changes it, and never to zero |
| `ImageVersions.VersionHistory` | internal/bbsim/devices/onu.go:1100-1103 | in every run the version of the download is the first 14 bytes of the last section that came without asking for a response while none was counted, and empty before the first such section |
| `ImageVersions.StandbyVersion` | internal/bbsim/devices/onu.go:1565 | in every run a verified end puts that version on standby |
| `ImageVersions.DownloadVersion` | internal/bbsim/devices/onu.go:1091-1141 | in every run the version is read from the first section of the last download if and only if that section asked for no response and no later one of that kind came while the sections acknowledged since the last start or abort were none (modulo 2^32) |
| `ImageVersions.UnabortedVersion` | internal/bbsim/devices/onu.go:1091-1141 | without an abort since the start the first section alone decides |
| `ImageVersions.OwnVersion` | internal/bbsim/devices/onu.go:1565 | in every run a download whose version was read from its first section puts the first 14 bytes of its own image on standby |
| `ImageVersions.AbortRenames` | internal/bbsim/devices/onu.go:1521-1530 | after an abort the next section that asks for no response renames the image, while the bytes received before stay in it |
| `DownloadStates.EndOutcomes` | internal/bbsim/devices/onu.go:1501-1573 | the four outcomes of an end request: abort, more bytes than the slice holds, all sections received with a CRC that fits, and everything else |
| `DownloadStates.StepAlive` | internal/bbsim/devices/onu.go:1100-1103 | the handler panics if and only if the first counted section is shorter than 14 bytes or an end request is about more bytes than the slice holds |
| `DownloadStates.StepStates` | internal/bbsim/devices/onu.go:1066-1249 | which event brings the ONU into each of the six download and image states and which takes it out; an answered end request that is no abort and does not fit leads from in progress to the error state |
| `DownloadStates.StateHistory` | internal/bbsim/devices/onu.go:194-207 | in every run the ONU is in one of these states if and only if such an event brought it there and no later one took it out |
| `DownloadStates.AbortLooksComplete` | internal/bbsim/devices/onu.go:1142-1155 | so an aborted download in progress counts as completed, keeps the old standby image and lets it be activated |
| `DownloadStates.AskedOnly` | internal/bbsim/devices/onu.go:1117-1141 | however a run goes on, while every section asks for a response no download gets past image_download_started; a matching end then puts the version of an earlier download on standby, and an activation swaps the images although the state machine refuses it |
| `UpgradeCycles.UpgradeCycle` | internal/bbsim/devices/onu.go:1066-1249 | one in-order upgrade makes the image active and committed under its entity, puts the previously committed one on standby and leaves the ONU ready for another start |
| `UpgradeCycles.UpgradeCycles` | internal/bbsim/devices/onu.go:194-207 | after any number n > 0 of upgrades active and committed are the nth image, standby the one before |
| `UpgradeCycles.AskedDownload` | internal/bbsim/devices/onu.go:1117-1141 | from any state a download may start in, one section that asks for a response and the end that fits it put the version of an earlier download on standby |
| `UpgradeCycles.AbortedDownload` | internal/bbsim/devices/onu.go:1521-1530 | from any such state, a section, an abort, another section and the end that fits both put the version of the second section on standby |
| `OmciHandler.ImageDownload.HandleEndDownload` | internal/bbsim/devices/onu.go:1501-1573 | panics if and only if all sections were received and the size passes the capacity; succeeds if and only if it is an abort, or all were received and the CRC fits the bytes made up with zeros; only the latter replaces the standby version |
| `ServiceChain.StepKeepsChain` | internal/bbsim/devices/onu.go:266-319 | every event keeps the chain from ONU over UNIs to services |
| `ServiceChain.ChainInvariant` | internal/bbsim/devices/uni_port.go:87-131 | in every run: a disabled ONU has all UNIs down; each service of a UNI that is up is initialized and has a channel; each service of a UNI that is down is not initialized, has no channel and is at the start of EAPOL and DHCP |
| `ServiceChain.RestartNeverBlocks` | internal/bbsim/api/onus_handler.go:378-526 | in every run no RestartEapol or RestartDhcp sends on a nil service channel, although only the former looks at the service |
| `ServiceChain.FlowBlocksWhenUniDown` | internal/bbsim/devices/onu.go:1418-1443 | a trap flow, whose handler looks at neither, blocks on a nil channel if and only if the UNI is down and a service wants the protocol |
| `ServiceChain.TrapFlowBlocks` | internal/bbsim/devices/onu.go:1418-1430 | an ONU that was initialized, discovered and enabled, with its UNI never unlocked, and an EAPOL trap flow: it blocks |
| `ServiceChain.RestartEffect` | internal/bbsim/api/onus_handler.go:378-526 | in every run a restart of EAPOL, or of DHCP, moves exactly that protocol to its started state, for exactly the services that need it, are at its beginning or end and sit on a chosen UNI that is up; everything else stays |
| `ServiceChain.FlowStartEffect` | internal/bbsim/devices/services.go:325-424 | a trap flow that does not block does the same to the services of its UNI that need the protocol and match the flow |
| `ServiceChain.SetUniEffect` | internal/bbsim/devices/onu.go:856-862 | locking takes the UNI down, unlocking brings it up; the other UNIs stay, and an ONU that is new or disabled takes no request |
| `ServiceChain.SetUniServices` | internal/bbsim/devices/uni_port.go:97-129 | a lock takes the channel of every service of the UNI and puts both protocols back to their start; an unlock gives a channel |
| `ServiceChain.FireEffect` | internal/bbsim/devices/onu.go:266-298 | a state event moves the ONU; being disabled takes every UNI down and nothing else touches them |
| `ServiceChain.AuthenticationSucceeds` | internal/bbsim/devices/services.go:162-171 | a started authentication succeeds with the four messages of its exchange in order, and changes nothing else |
| `ServiceChain.AddressAcquired` | internal/bbsim/devices/services.go:219-227 | a started DHCP exchange succeeds with discovery, request and acknowledgement |
| `ServiceDevices.ServiceDevice.constructor` | internal/bbsim/devices/services.go:96-124 | a new service is created, without a channel |
| `ServiceDevices.ServiceDevice.Start` | internal/bbsim/devices/services.go:176-181 | blocks if and only if the protocol is at its beginning or end and there is no channel; otherwise exactly that protocol gets its start event |
| `ServiceDevices.UniPort.Enable` | internal/bbsim/devices/uni_port.go:97-113 | a UNI that comes up initializes all its services |
| `ServiceDevices.UniPort.Disable` | internal/bbsim/devices/uni_port.go:114-129 | a UNI that goes down disables all its services |
| `ServiceDevices.UniPort.Start` | internal/bbsim/devices/uni_port.go:258-268 | the loop starts the wanted services in order and blocks if and only if one of them does, which keeps the later ones from being reached |
| `ServiceDevices.OnuPorts.FireEvent` | internal/bbsim/devices/onu.go:266-298 | disabling the ONU takes every UNI down; other events leave the UNIs alone |
| `ServiceDevices.OnuPorts.SetUniState` | internal/bbsim/devices/onu.go:845-874 | 1 locks the UNI and takes it down, anything else unlocks it and brings it up; the other UNIs stay as they are |
| `ServiceDevices.OnuPorts.Restart` | internal/bbsim/api/onus_handler.go:378-526 | while the chain holds nothing blocks, and exactly the services that need the protocol on chosen UNIs that are up get its start event |
| `FlowLists.WithoutFirst` | internal/bbsim/devices/onu.go:1456-1462 | removal takes one occurrence, the first, and keeps the order |
| `FlowLists.WithoutUnique` | internal/bbsim/devices/onu.go:1801-1812 | from a list without duplicates it takes the key and nothing else |
| `OnuChannels.HolderFound` | internal/bbsim/devices/olt.go:1391-1402 | the lookup by flow finds the first ONU that has the flow, and fails if and only if none has it |
| `OnuChannels.StepKeepsChannels` | internal/bbsim/devices/onu.go:217-318 | every event keeps the channel invariant: distinct instances, open unless disabled without flows, nothing closed twice |
| `OnuChannels.ChannelsInvariant` | internal/bbsim/devices/onu.go:217-318 | the same in every run over all ONUs of the OLT |
| `OnuChannels.ChannelClosing` | internal/bbsim/devices/onu.go:1456-1476 | in every run no channel instance is closed twice or while nil, a disabled ONU's channel is closed if and only if FlowIds is empty, and in every other state after the first initialization it is open |
| `OnuChannels.RemoveEffect` | internal/bbsim/devices/onu.go:1456-1476 | a removal takes the first occurrence from the first ONU that has the flow and keeps the order of the rest; the channel of a disabled ONU closes with its last flow; nothing else changes |
| `OnuChannels.RemoveNothing` | internal/bbsim/devices/olt.go:1391-1402 | it changes nothing if and only if no ONU has the flow |
| `OnuChannels.AddEffect` | internal/bbsim/devices/onu.go:1392 | an add appends the flow once to an ONU that is initialized and neither disabled nor below a disabled PON, and changes nothing for any other |
| `OnuChannels.FireEffect` | internal/bbsim/devices/onu.go:217-318 | a state event leaves the flows alone; an initialization makes a channel that was never there, a shutdown without flows closes the one there is |
| `OnuChannels.FlowsAreTheirHistory` | internal/bbsim/devices/onu.go:1392-1462 | in every run an ONU has a flow as often as it was added to it, less the removals that reached it |
| `OnuChannels.FlowRouter.FindOnu` | internal/bbsim/devices/olt.go:1391-1402 | the nested loops find the first holder, or none if there is none |
| `OnuChannels.FlowRouter.RemoveFlow` | internal/bbsim/devices/onu.go:1447-1477 | the lookup and the removal loop take the first occurrence from the first holder and nothing else; without a holder nothing changes |
| `FlowIndex.FindIs` | internal/bbsim/devices/pon.go:213-221 | the lookup returns ONU k if and only if k is the first ONU of the PON with that ID |
| `FlowIndex.LastingIs` | internal/bbsim/api/onus_handler.go:595-600 | every ONU can be listed, now and after any one removal, if and only if no key occurs twice and removing the flow behind a key takes that key too or does nothing |
| `FlowIndex.AddIsProper` | internal/bbsim/devices/olt.go:1193-1260 | FlowAdd keeps every ONU listable, now and after any one removal, if and only if it panics or the flow ID is no key yet, or it is one, does not become one again and its new flow still leads to that ONU or nowhere |
| `FlowIndex.ImproperAddBreaks` | internal/bbsim/devices/olt.go:1193-1349 | after any other FlowAdd, removing that flow leaves a key the listing panics on |
| `FlowIndex.IdIsProper` | internal/bbsim/devices/onu.go:1358-1364 | giving an ONU an ID keeps every ONU listable if and only if the flow behind no key then leads to another ONU |
| `FlowIndex.ImproperIdBreaks` | internal/bbsim/devices/onu.go:1358-1364 | after any other renumbering, removing some flow leaves a key the listing panics on |
| `FlowIndex.RemoveLasts` | internal/bbsim/devices/olt.go:1311-1349 | FlowRemove keeps every ONU listable, whatever the flow ID |
| `FlowIndex.CleanupLasts` | internal/bbsim/devices/onu.go:395-397 | so does disabling an ONU |
| `FlowIndex.CleanupClears` | internal/bbsim/devices/onu.go:395-397 | disabling an ONU leaves it without keys; its flows stay in the map and everything else stays |
| `FlowIndex.ListingIsExact` | internal/bbsim/api/onus_handler.go:595-600 | all ONUs can be listed at every point of a run, and after any one removal there, if and only if every event of the run is proper |
| `FlowIndex.FlowListing` | internal/bbsim/api/onus_handler.go:595-600 | in every run of proper events that starts without flows every key of every ONU is in the flow map and occurs once, so every lookup of the listing succeeds |
| `FlowIndex.ReAddBreaksListing` | internal/bbsim/api/onus_handler.go:595-600 | adding an accepted flow twice and removing it once always leaves a key the listing panics on |
| `FlowIndex.FlowStore.FindOnu` | internal/bbsim/devices/pon.go:213-221 | the loop returns the first ONU of the PON with the ID, or none |
| `FlowIndex.FlowStore.FlowAdd` | internal/bbsim/devices/olt.go:1193-1260 | the flow is stored before anything is checked; the key goes to the ONU unless the ONU is missing or down |
| `FlowIndex.FlowStore.DeleteFlow` | internal/bbsim/devices/onu.go:1801-1812 | removes the first occurrence of the key from that ONU and nothing else |
| `FlowIndex.FlowStore.FlowRemove` | internal/bbsim/devices/olt.go:1311-1349 | found if and only if the flow was stored; a flow whose PON or ONU is gone stays in the map |
| `FlowIndex.FlowStore.GetFlows` | internal/bbsim/api/onus_handler.go:595-600 | succeeds if and only if every key is in the map, and then lists the flows in the order of the keys |
| `PonsConfig.Validate` | internal/common/options.go:552-600 | terminates on every input and accepts if and only if there are PON ports, technologies and limits are valid, and the PON ranges partition 0 .. Number-1; a reported error is really there |
| `PonsConfig.CountPorts` | internal/common/options.go:567-577 | the 32-bit loop over one range ends even at the largest number, counts each port of the range once, and reports the first port too high or counted before |
| `PonsConfig.ExplainedIsInvalid` | internal/common/options.go:552-600 | every reported defect makes a configuration invalid |
| `PonsConfig.GetPonConfigById` | internal/common/options.go:153-165 | the first covering range; on a valid configuration it succeeds for exactly the IDs below Number, and all covering ranges are that one |
| `PonsConfig.DefaultIsValid` | internal/common/options.go:474-501 | the default configuration is valid if and only if there are PON ports and ONUs and the alloc ID and GEM port ranges, after 32-bit wrap-around, do not run past the largest number |
| `PonsConfig.DefaultRanges` | internal/common/options.go:485-500 | without overflow the default is one XGS-PON range over all ports, with ONU IDs from 1, alloc IDs from 1024, one per service, UNI and ONU and one more, and GEM ports from 1024, eight per such alloc ID and one more |
| `PonsConfig.SmallDefaultIsValid` | internal/common/options.go:474-501 | without any overflow it is valid, with one alloc ID per service, UNI and ONU |
| `TagAllocation.ServicesTagged` | internal/bbsim/devices/uni_port.go:133-174 | with distinct names the services of UNI number n get base + n (unique) or the base (shared), and the loop completes if and only if no increment passes 4096 |
| `TagAllocation.UnisTagged` | internal/bbsim/devices/uni_port.go:133-174 | the same for all UNIs up to n |
| `TagAllocation.SharedNameSharesCounter` | internal/bbsim/devices/uni_port.go:135-145 | two services of one name share a counter, so the rule does need distinct names |
| `TagAllocation.CompletionLimit` | internal/bbsim/devices/uni_port.go:147-174 | with distinct names the construction completes if and only if the last UNI's unique tags are at most 4096 |
| `TagAllocation.TagsByNumber` | internal/bbsim/devices/uni_port.go:133-188 | the tags of UNI number n in a complete construction |
| `TagAllocation.TagsByPosition` | internal/bbsim/devices/olt.go:209-254 | UNI u of ONU j on PON i gets base + ((i*NumOnu + j)*NumUni + u) under unique allocation and the base under shared |
| `TagAllocation.UniqueTagsDiffer` | internal/bbsim/devices/uni_port.go:144-174 | in a complete construction with distinct service names two UNIs of the OLT share a unique C-tag or S-tag of a service only if they are the same UNI |
| `TagAllocation.NewUniPort` | internal/bbsim/devices/uni_port.go:69-194 | succeeds if and only if the UNI ID is below 4 and both allocations succeed; the tags and the two maps it leaves |
| `TagAllocation.CreateOnu` | internal/bbsim/devices/onu.go:346-358 | the loop over the UNIs of an ONU continues the construction by NumUni UNIs, or ends it if and only if that cannot complete |
| `TagAllocation.CreatePon` | internal/bbsim/devices/olt.go:245-252 | the loop over the ONUs of a PON continues it by NumOnu ONUs |
| `TagAllocation.CreateUnis` | internal/bbsim/devices/olt.go:209-254 | the whole construction completes if and only if every tag and UNI ID is within its limit, and lists the UNIs in order of creation |
| `DmiInventory.PlugEffect` | internal/bbsim/dmiserver/dmi_hw_mgmt.go:389-496 | a plug operation flips the one transceiver and changes the children of its own cage only; plugging in what is in, or out what is out, changes nothing |
| `DmiInventory.StepKeepsConsistent` | internal/bbsim/dmiserver/dmi_hw_mgmt.go:115-524 | every operation keeps the edited tree equal to the one that would be built anew |
| `DmiInventory.InventoryInvariant` | internal/bbsim/dmiserver/dmi_hw_mgmt.go:115-140 | the same in every run of start, stop, plug-in and plug-out |
| `DmiInventory.FindIffOccurs` | internal/bbsim/dmiserver/dmi_hw_mgmt.go:581-597 | the recursive search succeeds if and only if the UUID occurs in the tree, and returns a component with it |
| `DmiInventory.PluggedIffFound` | internal/bbsim/dmiserver/dmi_hw_mgmt.go:389-597 | in every run, while managed, a transceiver is plugged in if and only if its cage holds it as its only child, and if and only if the search from the root finds it |
| `DmiInventory.ManagedIffStarted` | internal/bbsim/dmiserver/dmi_hw_mgmt.go:86-524 | in every run there is a tree if and only if managing was started and not stopped since |
| `DmiInventory.PlugAfter` | internal/bbsim/dmiserver/dmi_hw_mgmt.go:389-496 | which event moves the plug of a transceiver |
| `DmiInventory.PlugHistory` | internal/bbsim/dmiserver/dmi_hw_mgmt.go:389-496 | in every run a transceiver is plugged in unless it was taken out, while managed, and not put back since |
| `DmiInventory.PortIffPlugged` | internal/bbsim/dmiserver/dmi_hw_mgmt.go:191-272 | in every run, while managed, a search finds the port of a PON if and only if its transceiver is plugged in |
| `DmiInventory.DeviceParts` | internal/bbsim/dmiserver/dmi_hw_mgmt.go:142-157 | in every run a managed device has two fans and one disk, processor, memory, temperature sensor and power supply behind its cages |
| `DmiInventory.PlugRoundTrip` | internal/bbsim/dmiserver/dmi_hw_mgmt.go:389-496 | plugging out and in again restores the whole state |
| `DmiInventory.FindComponents` | internal/bbsim/dmiserver/dmi_hw_mgmt.go:605-615 | the collector grows by exactly the components of the type, in depth-first order |
| `DmiInventory.TransceiversFound` | internal/bbsim/dmiserver/dmi_hw_mgmt.go:599-615 | in every run the transceivers collected from a managed device are those plugged in, in order |
| `DmiInventory.DmiServer.constructor` | internal/bbsim/dmiserver/dmi_api_server.go:55-70 | one plugged-in transceiver per PON and no tree |
| `DmiInventory.DmiServer.StartManagingDevice` | internal/bbsim/dmiserver/dmi_hw_mgmt.go:112-157 | a cage per transceiver, with the transceiver in it if plugged in, followed by the fixed parts; a transceiver without PONs gets no cage |
| `DmiInventory.DmiServer.TransceiverWithId` | internal/bbsim/dmiserver/dmi_transceiver.go:62-70 | the first transceiver with the ID, or none |
| `DmiInventory.DmiServer.PlugOutTransceiver` | internal/bbsim/dmiserver/dmi_hw_mgmt.go:389-444 | takes the transceiver out of the first cage that holds it; every failure changes nothing |
| `DmiInventory.DmiServer.PlugInTransceiver` | internal/bbsim/dmiserver/dmi_hw_mgmt.go:446-496 | appends the transceiver to the first cage with its cage UUID; every failure changes nothing |

## Left out

- The gRPC, REST and Kafka servers, protobuf conversions, `bbsimctl` and `cmd`: plumbing around the modelled state.
- The constant-answer endpoints in `internal/bbsim/devices/olt.go` from line 1999 on: they answer with constants and keep no state.
- EAPOL, DHCP, IGMP and PPPoE packet contents, VLAN push and pop, and the OMCI codec: requests arrive decoded, with flags for a failed parse or response.
- The CRC itself: the checksum is a function parameter, and every statement holds for any function.
- Timers, sleeps, discovery, authentication and DHCP retries, and queueing inside Go channels.
- The IGMP state machine, POTS ports, ONU alarms, metrics and events, log levels, the PON OperState and indications.
- The behaviour of BBR beyond its two ONU states, and performance mode (`enablePerf`), which is off in `FlowIndex`.
- That nothing is ever sent on a closed ONU channel: not claimed, as shutdown and alarms send without looking at the ONU state.
- `RestartOLT` timing and the fatal error of `InitOlt` when the OLT server is running: only the events and the cleared tables are modelled.
- Overlapping gRPC calls and data races: updates in place are modelled, concurrent ones are not.
- Serial numbers: the owner of a table entry is the position of the ONU on its PON, and ActivateOnu is modelled for ONUs that exist; the nil dereference for an unknown serial number is not.
- What FlowAdd learns from the ONU (it exists and is neither disabled nor below a disabled PON) is the parameter `admitted` in `FlowAllocator` and `disabled` in `FlowIndex`; `FlowAdmission` has the ONUs themselves.
- FlowRemove reaches the ONU only after its checks of the flow map; `OnuChannels` allows it at any time, which covers those runs and more.
- Which services a DHCP flow matches (tag and p-bit comparison) is the parameter `positions` in `ServiceChain`; a UNI named by text in a restart request is a number or absent.
- How much a slice grows beyond what is needed is a function parameter, as the choice is the language runtime's; every statement holds for any such function.
- DMI names, attributes and state, and the streams and events of the plug calls; UUIDs are distinct by construction, where the program hashes names. The tree is held by value, so sharing of components is not modelled.
- The three limit errors of one PON range are one error, `BadLimits`; the nil checks of the default configuration and of the lookup are not modelled.
- The check of CreateOLT that the ONU range is large enough, MAC addresses and the other service fields.
- The response-rate gate, MIB data sync, activation and commit of the OMCI handler are modelled on values: the order of the field updates within one request is not captured. The image download is an object with its slice on the heap.
