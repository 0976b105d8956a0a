/** The faults the graph page lists, and the messages they carry. */
module GraphFaults {

  datatype FaultKind = Unresolved | External | Forward | Cycle

  datatype Fault = Fault(kind: FaultKind, node: string, detail: string)
}
