# Orchestra sender-based unicast rule and sensor-node statistics, in Dafny

This project models two pieces of a Contiki-NG tree.

**The Orchestra sender-based unicast rule for RPL non-storing mode**
(`orchestra-rule-unicast-per-neighbor-rpl-ns-sb.c`). This is a TSCH
scheduling rule. Each node hashes its own link-layer address to one
timeslot of a unicast slotframe. `init` installs one shared, receive-capable
link to the broadcast neighbour in every timeslot, and adds the transmit
option only at the node's own timeslot. `select_packet` sends every data
frame with a non-null receiver in that own timeslot, whoever the
destination is. The three topology hooks do nothing.

**The root's per-source statistics of the 6TiSCH sensor-node example**
(`examples/6tisch/sensor-node/node.c`). The root keeps a fixed pool of
records. `udp_rx_callback` finds the sender's record or allocates one,
drops duplicate sequence numbers with a window of the last `NSEQNOS`
numbers, counts new packets and detects the end of a run. The
end-of-run handler files the run's count and resets the record for the
next run. `create_message` builds the payload a source sends: the
sequence number printed with `%03d`, then 'X' padding.

Modules, one per file:

- `CTypes` (`c_types.dfy`): C value types, `uint8_t`/`uint16_t` ranges, NULL-able pointers (`Ptr`) and `Option`.
- `TschSchedule` (`tsch_schedule.dfy`): the link and slotframe records, link options as a set, and a transmit-link count.
- `OrchestraUnicastSb` (`orchestra_unicast_sb.dfy`): the rule.
- `SensorNodeConf` (`sensor_node_conf.dfy`): `MAX_PKTS`, `MAX_RUNS`, `NSEQNOS`, `DEFAULT_PAYLOAD_LEN`, and `MAX_SOURCE_NODES`. The last is 3, because `node.c` redefines it after including `node.h`, which says 16.
- `SeqnoFormat` (`seqno_format.dfy`): `%03d` formatting, C `atoi`, and their round trip.
- `SensorMessage` (`sensor_message.dfy`): `create_message`.
- `SensorStats` (`sensor_stats.dfy`): the stats table, the window, the callback and the end-of-run reset.

Inputs the source takes from its environment become explicit parameters:

- `ORCHESTRA_UNICAST_PERIOD`, `linkaddr_node_addr` and the `ORCHESTRA_LINKADDR_HASH` function are fields of `OrchestraUnicastSb.Config`. The hash is any deterministic function from addresses to naturals.
- The packet-buffer frame type and receiver address are arguments of `SelectPacket`.
- Whether each out-pointer is NULL is an argument of `SelectPacket`.
- The sender address and the `atoi`-decoded sequence number are arguments of `UdpRxCallback`.

The TSCH schedule calls are modelled by the `Slotframe` record that `Init` returns.

Three behaviours of the code are worth stating plainly:

- `select_packet` refuses a frame only when its receiver is `linkaddr_null`. In Contiki-NG this is how the packet buffer marks a broadcast frame. A data frame whose receiver is the all-ones TSCH broadcast address would be claimed.
- `init` does not check whether `tsch_schedule_add_slotframe` returned NULL.
- With a period of 0, `init` computes the sentinel `0xffff` as its transmit slot and installs no links. `select_packet` still claims data frames and stores `0xffff` as their timeslot. `SelectedSlotIsTxLink` states this case.

## Model

| member | source | states |
|---|---|---|
| OrchestraUnicastSb.NodeTimeslot | os/services/orchestra/orchestra-rule-unicast-per-neighbor-rpl-ns-sb.c:55-63 | for a non-NULL address and a positive period the slot is the address hash modulo the period, hence below the period; otherwise it is the sentinel 0xffff |
| OrchestraUnicastSb.NodeTimeslotSentinel | os/services/orchestra/orchestra-rule-unicast-per-neighbor-rpl-ns-sb.c:58-62 | the result is 0xffff if and only if the address is NULL or the period is 0, so a real slot is never mistaken for the sentinel |
| OrchestraUnicastSb.NeighbourAgreesOnSlot | os/services/orchestra/orchestra-rule-unicast-per-neighbor-rpl-ns-sb.c:56-59 | any node with the same period and hash computes, for a neighbour's address, the slot that neighbour transmits in |
| OrchestraUnicastSb.Init | os/services/orchestra/orchestra-rule-unicast-per-neighbor-rpl-ns-sb.c:98-116 | handle and channel offset both equal the argument; one slotframe with that handle and size equal to the period; exactly `period` links, link i at timeslot i, normal, to the broadcast address, on channel offset h, shared and receive; transmit if and only if i is the node's own slot; exactly one transmit link when the period is positive and none when it is 0 |
| TschSchedule.CountTxSingle | os/services/orchestra/orchestra-rule-unicast-per-neighbor-rpl-ns-sb.c:109-111 | when only index k may transmit, the number of transmit links is 1 if k is a valid index and 0 otherwise |
| OrchestraUnicastSb.SelectPacket | os/services/orchestra/orchestra-rule-unicast-per-neighbor-rpl-ns-sb.c:75-91 | returns 1 exactly for a data frame whose receiver is not the null address, else 0 with nothing stored; a claim stores the rule's slotframe handle and the node's own timeslot, each only through a non-NULL out-pointer |
| OrchestraUnicastSb.SelectionIgnoresDestination | os/services/orchestra/orchestra-rule-unicast-per-neighbor-rpl-ns-sb.c:79-88 | two non-null destinations get identical selections: the slot is chosen by the sender |
| OrchestraUnicastSb.SelectedSlotIsTxLink | os/services/orchestra/orchestra-rule-unicast-per-neighbor-rpl-ns-sb.c:82-113 | after init a claimed frame gets init's slotframe and the one timeslot whose link transmits; with period 0 it gets 0xffff, which no link has |
| OrchestraUnicastSb.ChildAdded | os/services/orchestra/orchestra-rule-unicast-per-neighbor-rpl-ns-sb.c:65-68 | handle, channel offset and slotframe are left unchanged |
| OrchestraUnicastSb.ChildRemoved | os/services/orchestra/orchestra-rule-unicast-per-neighbor-rpl-ns-sb.c:70-73 | handle, channel offset and slotframe are left unchanged |
| OrchestraUnicastSb.NewTimeSource | os/services/orchestra/orchestra-rule-unicast-per-neighbor-rpl-ns-sb.c:93-96 | handle, channel offset and slotframe are left unchanged |
| OrchestraUnicastSb.NotificationsPreserveState | os/services/orchestra/orchestra-rule-unicast-per-neighbor-rpl-ns-sb.c:118-124 | any sequence of hook calls through the rule leaves the state, and so every later selection, as it was |
| SeqnoFormat.FormatSeqno | examples/6tisch/sensor-node/node.c:322 | "%03d" text is at least three characters, all digits for a non-negative number, a minus sign and digits otherwise |
| SeqnoFormat.FormatSeqnoWidth | examples/6tisch/sensor-node/node.c:322 | numbers 0 to 999 print as exactly three characters |
| SeqnoFormat.AtoiCases | examples/6tisch/sensor-node/node.c:148 | atoi on any text: an all-digit string gives its decimal value, a negative result only comes after a leading '-' (past the spaces), and empty text or text starting with anything but a digit or a sign gives 0 |
| SeqnoFormat.AtoiParts | examples/6tisch/sensor-node/node.c:148 | atoi on white space, an optional '-' or '+', a run of digits and any text not starting with a digit returns the digits' decimal value, negated after '-': leading isspace characters are skipped and only the longest digit run counts |
| SensorStats.RunComplete | examples/6tisch/sensor-node/node.c:179 | the end of a run is due when seqno >= MAX_PKTS * (run + 1): among the numbers MAX_PKTS*run+1 to MAX_PKTS*(run+1) sent in a run, exactly the last one ends it, and no number of an earlier run does |
| SeqnoFormat.AtoiFormatSeqno | examples/6tisch/sensor-node/node.c:148 | atoi reads back any number "%03d" printed, whatever non-digit text follows |
| SensorMessage.Snprintf | examples/6tisch/sensor-node/node.c:322 | snprintf keeps the buffer length, copies the text and a NUL when it fits, otherwise a truncated text and a NUL in the last byte |
| SensorMessage.CreateMessage | examples/6tisch/sensor-node/node.c:312-329 | returns buflen exactly when the buffer is non-NULL, at least one byte long and longer than the text; otherwise -1; a completed message is the text, a NUL, then 'X' to the end; a too-short buffer holds the truncated text and a NUL |
| SensorMessage.CreateMessageRoundTrip | examples/6tisch/sensor-node/node.c:312-329 | whenever the buffer is non-NULL and longer than the formatted number, the receiver's atoi recovers the sequence number from the message |
| SensorMessage.SourceMessagesRoundTrip | examples/6tisch/sensor-node/node.c:379-389 | every sequence number a source sends, 1 to MAX_PKTS*MAX_RUNS in a DEFAULT_PAYLOAD_LEN buffer, yields a complete message that decodes to that number |
| SensorMessage.CreateMessageAsWritten | examples/6tisch/sensor-node/node.c:316-320 | the code as written writes through the buffer pointer exactly when it is NULL and buflen is at least 1 |
| SensorMessage.CreateMessageAsWrittenNullWrite | examples/6tisch/sensor-node/node.c:316-320 | create_message(1, NULL, 50) writes through NULL as written; the corrected version returns -1 |
| SensorMessage.CreateMessageAsWrittenAgrees | examples/6tisch/sensor-node/node.c:314-328 | with a non-NULL buffer, or a zero length, the code as written and the corrected version return the same |
| SensorStats.ZeroStats | examples/6tisch/sensor-node/node.c:75-86 | a zeroed record has window and array sizes matching the C arrays, a 16-byte all-zero source address, run 0, no packets, no flags set, an all-zero window and all-zero run totals |
| SensorStats.MembInit | examples/6tisch/sensor-node/node.c:220 | after memb_init every block is free and holds the all-zero record, so a newly allocated source starts at run 0 with no packets, clear flags and a zero window |
| SensorStats.FindSource | examples/6tisch/sensor-node/node.c:107-115 | returns the first allocated block whose source address is the sender, or -1 exactly when no allocated block has it |
| SensorStats.MembAllocSlot | examples/6tisch/sensor-node/node.c:118-120 | returns the first free block, or -1 exactly when every block is allocated |
| SensorStats.LookupOrAlloc | examples/6tisch/sensor-node/node.c:105-133 | an existing record wins; else the first free block is allocated and given the sender's address; when the pool is full, -1 and no change; no other block changes |
| SensorStats.IsRedundant | examples/6tisch/sensor-node/node.c:147-154 | reports a duplicate exactly when the number is in the window |
| SensorStats.ShiftIn | examples/6tisch/sensor-node/node.c:155-162 | the window keeps its length, each entry moves one place towards the front, and the new number is last |
| SensorStats.CountSeqno | examples/6tisch/sensor-node/node.c:147-176 | a duplicate leaves window and counter unchanged; a new number adds exactly one to the counter and shifts it into the window; started is set; run, totals and source are untouched |
| SensorStats.EndOfRun | examples/6tisch/sensor-node/node.c:348-367 | files the packet count under the current run, leaves other runs' totals, zeroes the counter and the window, clears started and finished, and moves run to (run+1) mod MAX_RUNS, so it stays in [0, MAX_RUNS) |
| SensorStats.RootEtHandler | examples/6tisch/sensor-node/node.c:332-369 | resets only the record owning the timer and leaves the table unchanged for a timer outside it |
| SensorStats.ReceiveSeqno | examples/6tisch/sensor-node/node.c:147-181 | run changes exactly when seqno >= MAX_PKTS*(run+1); otherwise the duplicate and new-number effects and started are set; at the end of a run the total includes this packet if new, and the record is reset for the next run |
| SensorStats.ReceiveKeepsNoRepeats | examples/6tisch/sensor-node/node.c:147-162 | a window in which no non-zero number repeats keeps that property after any received number |
| SensorStats.UdpRxCallback | examples/6tisch/sensor-node/node.c:96-193 | no change when the sender is new and the pool is full; otherwise exactly one block, the sender's (found first, or first free), is updated as ReceiveSeqno says, and the table stays well-shaped with every run index in range |

## Left out

- Orchestra's logging (`LOG_INFO`), and the rule's registration as a `struct orchestra_rule`. The dispatch is represented by the `Notification` sequence for the three hooks.
- Failure modes of the TSCH schedule calls. `tsch_schedule_add_slotframe` returns NULL for a handle already in use, and the links then go nowhere. The schedule engine is not part of this model, so `Init` always yields the slotframe.
- The hash algorithm behind `ORCHESTRA_LINKADDR_HASH` and the configured period value. Both are configuration and appear as parameters.
- OrchestraUnicastSb.NodeTimeslot: the hash is taken as a natural number. A negative C hash value is not modelled. The reduction to `uint16_t` is lossless because the period is a 16-bit slotframe size.
- The value of `tsch_broadcast_address`. It is defined by the TSCH engine, not here, and is modelled as the all-ones address.
- node.c's processes and timing: `node_process`, `udp_client_process`, `root_process` and `set_role`. This covers etimers, `clock_time()`, the `run_started_at` and `run_duration` fields, and the expiry estimate at node.c:183-191. All of this is I/O, timing and scheduler plumbing. The client's sequence numbers appear only in `SourceMessagesRoundTrip`.
- Logging in `udp_rx_callback`: the visual offset string, the out-of-order report and the `print_*` functions. None of these changes any state.
- SensorStats.MembAllocSlot: the allocator itself (memb.c) is not part of this model. Allocation is taken as "the first free block". The block keeps the contents memb_init gave it, because no block is ever freed.
- SensorStats.RootEtHandler: the timer pointer is represented by the block index it belongs to.
- SensorStats.CountSeqno: `pkts_received` is an `int`. Its overflow after 2^31 packets in one run is not modelled.
- SeqnoFormat.Atoi: results outside the `int` range, undefined in C, are not modelled.
- SensorMessage.CreateMessage: the return type is `size_t`, so the -1 it returns is really `SIZE_MAX`. The model keeps -1, because the only caller ignores the value.
- `examples/6tisch/simple-node/node.c` and `arch/platform/nrf52dk/config/sdk_config.h`. The first is process and UDP plumbing; the second holds only peripheral configuration.

## Findings

| source | as written | input that shows it | evidently intended | confidence | as-written member | corrected member |
|---|---|---|---|---|---|---|
| examples/6tisch/sensor-node/node.c:316-320 | `memset(buffer, 'X', buflen)` runs before the `buffer == NULL` test | `create_message(1, NULL, 50)` writes 50 bytes through a NULL pointer | test for NULL and an empty buffer first, and return -1 without writing | medium, not executed; the only caller passes a stack array | SensorMessage.CreateMessageAsWritten, SensorMessage.CreateMessageAsWrittenNullWrite | SensorMessage.CreateMessage |
