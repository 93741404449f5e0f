/** The fields of an OpenOLT flow that decide where it belongs and what it uses. */
module OpenoltFlows {
  import opened MachineIntegers

  const MULTICAST := "multicast"

  datatype Flow = Flow(accessIntfId: int32, onuId: int32, portNo: uint32, gemportId: int32, allocId: int32,
                       flowId: uint64, flowType: string, replicateFlow: bool, pbitToGemport: map<uint32, uint32>)

  function PonOf(f: Flow): uint32 {
    ToUint32(f.accessIntfId)
  }

  function OnuOf(f: Flow): uint32 {
    ToUint32(f.onuId)
  }

  // Flows of the OLT itself and multicast flows hold no ONU resources.
  predicate IsOnuFlow(f: Flow) {
    f.accessIntfId != -1 && f.flowType != MULTICAST
  }
}
