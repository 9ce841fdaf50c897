/** One node as CLUSTER NODES shows it; its flags are a set of tags and its slot column is text. */
module ClusterView {

  const TOTAL_SLOTS := 16384

  datatype Flag = Myself | Master | Slave | Fail | PFail | Handshake | NoAddr

  datatype ClusterNode = ClusterNode(
    id: string, ip: string, flags: set<Flag>, primary: string, epoch: int, slots: string)

  predicate IsPrimary(node: ClusterNode) {
    Master in node.flags
  }
}
