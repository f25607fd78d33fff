/** Build-time constants of the sensor-node example (node.h, with the
    values node.c redefines after including it). */
module SensorNodeConf {

  /** Packets a source sends per run (MAX_PKTS). */
  const MaxPkts: nat := 10

  /** Size of the message buffer a source sends (DEFAULT_PAYLOAD_LEN). */
  const DefaultPayloadLen: nat := 50

  /** Number of runs (MAX_RUNS). */
  const MaxRuns: nat := 2

  /** Size of the root's per-source table (MAX_SOURCE_NODES): node.h says
      16, but node.c redefines it to 3 before the table is declared. */
  const MaxSourceNodes: nat := 3

  /** Length of the duplicate-suppression window (NSEQNOS). */
  const NSeqnos: nat := 4
}
