/** Peer addresses, the plurality constants (src/peer/plurality.rs), and the outcome vocabulary shared
    by every graded read. */
module Net {

  datatype IpAddr =
    | V4(a: nat, b: nat, c: nat, d: nat)
    | V6(s0: nat, s1: nat, s2: nat, s3: nat, s4: nat, s5: nat, s6: nat, s7: nat)

  datatype SocketAddr = SocketAddr(ip: IpAddr, port: nat)

  /** The kinds of failure a read can end in; message texts are not modelled. */
  datatype QueryError =
    | ReadFailed
    | SourcesDisagree
    | UncorroboratedPresence
    | UncorroboratedAbsence
    | AllSourcesFailed

  const CORROBORATION_FLOOR: nat := 2
  const SETTLED_LAG: nat := 2
  const PEAK_LAG_TOLERANCE: nat := 3
  const PEAK_LAG_EVICTION: nat := 2 * PEAK_LAG_TOLERANCE
  const PEER_LIFETIME: nat := 300

  /** Whether the pool held enough independent voices before a round. */
  datatype Readiness =
    | Armed(corroborators: nat)
    | Insufficient(corroborators: nat, required: nat)

  predicate IsCorroborated(readiness: Readiness, agreed: nat)
  {
    readiness.Armed? && agreed >= CORROBORATION_FLOOR
  }
}
