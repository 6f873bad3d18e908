# A verified model of the EPON / NG-EPON upstream data path

This project models the per-stage state machines of a byte-clocked simulator of the EPON
upstream data path, for both variants:

- the 10G-EPON path (IEEE 802.3 Clause 76): MAC client, MPCP transmit gate, MAC,
  XGMII lane packer, idle deletion with the ONU half shift, 64B/66B encoder, scrambler,
  OLT and ONU data detector with FEC framing, FEC decoder, descrambler, 66B/64B decoder,
  idle insertion, and the receive MAC and MPCP;
- the NG-EPON path: MAC client, MPCP gate without FEC overhead, MAC, the channel-bonding
  reconciliation sublayer of IEEE 802.3ca, the 25GMII lane packer, and the
  receive MAC with its block counter.

Every stage is an object with counters, flags, a state pointer and bounded FIFOs, driven by
`ReceiveUnit` and `TransmitUnit` calls. Each becomes a Dafny `class` with the stage's own
fields. Its methods are proved against pure step functions over a snapshot of the state:
`State() == Step(old(State()))`. The multi-call behaviour the simulator depends on is then
proved as lemmas about runs of those step functions. Examples:

- the 2-or-3 idle-column gap of the deficit idle count;
- S, D..., T framing with consecutive sequence numbers, and its reassembly by the receive MAC;
- the 27 data / 4 parity FEC cycle and the burst preamble, delimiter and terminator;
- the never-truncated grant and the codeword round trip of the reconciliation sublayer;
- the one-column delay of the half shift and of the lane packers;
- the delay line formed by idle insertion.

The value types the source copies (`_36b_t` column, `_72b_t` vector, `_66b_t` block,
`_frm_t` frame, `timestamp_t`) are datatypes. The circular `Queue` is a class over an
array and is used by every buffering stage.

Files, one module each:

| file | module | models |
|---|---|---|
| blocks.dfy | Blocks | constants, block types and masks, timestamps, columns, vectors, 66-bit blocks, frames (FSM_base.h) |
| queue.dfy | Queues | `Queue<item_t, SIZE>` (_queue.h) |
| fsm_base.dfy | Stages | delay slots and the default `fsm_base_t` protocol (FSM_base.h) |
| coding.dfy | Coding | encoder, decoder, scrambler, descrambler, MPCP receive (FSM_misc.h, FSM_MPCP.h, FSM_NGEPON_MPCP.h) |
| mac_client.dfy | MacClient | the MAC client scheduler (FSM_misc.h, FSM_NGEPON_MACC.h) |
| mpcp.dfy | Mpcp | both MPCP transmit gates (FSM_MPCP.h, FSM_NGEPON_MPCP.h) |
| mac.dfy | Mac | MAC transmit and both receive MACs (FSM_MAC.h, FSM_NGEPON_MAC.h) |
| lanes.dfy | Lanes | XGMII / 25GMII lane packers (FSM_XGMII.h, FSM_25GMII.h, FSM_NGEPON_25GMII.h) |
| rs.dfy | ReconciliationTx | channel-bonding RS transmit (FSM_NGEPON_RS.h) |
| idle_deletion.dfy | IdleDeletion | OLT idle deletion and the ONU half shift (FSM_ID.h) |
| idle_insertion.dfy | IdleInsertion | idle insertion (FSM_II.h) |
| data_detector.dfy | DataDetector | OLT and ONU data detectors (FSM_DD.h) |
| fec_decoder.dfy | FecDecoder | the FEC decoder (FSM_FEC.h) |

Code that appears verbatim in several files is modelled once, and its rows cite the first
copy. This covers:

- the MAC transmitter of FSM_MAC.h and FSM_NGEPON_MAC.h;
- the MAC client of FSM_misc.h and FSM_NGEPON_MACC.h;
- the three lane-packer pairs;
- the two MPCP receive stages.

## Model

A step function without an `ensures` of its own is described by the lemma and method rows that cite
the same source lines. Examples are `Mac.TxTransmit`, `Mac.CalculateIpgBytes`, `Mac.FrameColumns`,
`Mpcp.FecOverhead`, `Mpcp.Tick`, `Blocks.BlocksRoundUp`, `Blocks.TType`, `Lanes.HopColumn` and
`Lanes.HopVector`.

| member | source | states |
|---|---|---|
| Blocks.TruncDiv | FSM_base.h:66-69 | C++ `/` on the operands BLOCKS_ROUND_UP uses, rounded toward zero: for a non-negative dividend the remainder lies in [0, b), for a negative one in (-b, 0] |
| Blocks.Int16 | FSM_base.h:172 | the `int16s` cast: the result lies in [-32768, 32768), is congruent to the argument modulo 2^16, and equals it when it is already in range |
| Blocks.BlocksRoundUpIsCeiling | FSM_base.h:66-72 | for a non-negative payload, BLOCKS_ROUND_UP / BLK_ROUNDUP is the least block count whose capacity covers the payload |
| Blocks.IsTypeIsBitTest | FSM_base.h:210-213 | the flag test `(flag & mask) != 0` on the blk_t bit values holds exactly when the type is in the mask read as a set |
| Blocks.BlockName | FSM_base.h:105-120 | the name is '-' exactly for a value the enumeration does not list |
| Blocks.MeasureDelay | FSM_base.h:170-178 | the slot gets the 16-bit residence time since the last stamp, every other slot keeps its sample, and the stamp moves to the current clock |
| Blocks.StampPathKeeps | FSM_base.h:170-178 | measurements in other slots never change a slot's sample |
| Blocks.StampPathTime | FSM_base.h:177 | after a sequence of measurements the unit carries the clock of the last one |
| Blocks.StampPathTelescopes | FSM_base.h:170-178 | with distinct slots and hops shorter than 2^15 byte times, the samples add up to the time from creation to the last measurement |
| Blocks.TypedColumn | FSM_base.h:193-197 | `_36b_t(blk)`: the given type, timestamp 0 and no sequence number (-1) |
| Blocks.UniformVector | FSM_base.h:234-237 | `_72b_t(stamp, blk, seq)`: both lanes hold the same column with that stamp, type and sequence number |
| Blocks.WithLane | FSM_base.h:241 | writing through `operator[]` changes the addressed lane and leaves the other one alone |
| Blocks.LaneIndexMasked | FSM_base.h:241 | `operator[]` selects lane `index & 1`: indices two apart name the same lane and neighbouring indices name the two different lanes |
| Blocks.TTypeTable | FSM_base.h:246-273 | T_TYPE in closed form, both directions: S for S/D or C/S, T for D/T or T/C, the lane type for a homogeneous D, C, P, L, N or Z pair, E for every other pair |
| Blocks.TTypeUniform | FSM_base.h:259-273 | a vector whose lanes share one type has that type when it is in the homogeneous list, E otherwise |
| Blocks.SyncHeaderByType | FSM_base.h:303-317 | the derived sync header by vector type, both directions: DATA for D, PRTY for P, CTRL for C/S/T, NONE for E/Z/L/N |
| Blocks.Encode66 | FSM_base.h:311-317 | `_66b_t(vector)` keeps the vector and derives its header from it |
| Blocks.Uniform66Headers | FSM_base.h:303-309 | the default, parity, sync, delimiter and zero blocks get the headers CTRL, PRTY, NONE, NONE and NONE |
| Blocks.SyncHeaderIgnoresStamps | FSM_base.h:285-289 | stamping a vector's lanes does not change the header derived from it |
| Blocks.AddColumn | FSM_base.h:339-350 | an S column restarts the frame at one column's bytes with the column's timestamp, D and T add a column's bytes, every other type changes nothing |
| Blocks.AddColumnsCountsBytes | FSM_base.h:339-350 | a run of D and T columns adds exactly one column's bytes per column and keeps the timestamp |
| Blocks.StampVector | FSM_base.h:285-289 | both lanes are measured in the same slot at the same clock; types and sequence numbers stay |
| Blocks.StampBlock66 | FSM_base.h:385-390 | the output operator's measurement keeps a block's header and vector type |
| Blocks.StampFrame | FSM_base.h:385-390 | the output operator's measurement keeps a frame's size and measures its stamp |
| Coding.EncodeDecodeRoundTrip | FSM_misc.h:140-157 | decoding inverts encoding, and encoding inverts decoding on exactly the blocks whose header matches their vector |
| Coding.StampKeepsWellFormed | FSM_base.h:385-390 | the output operator's measurement keeps a block's header consistent with its vector |
| Coding.NewEncoder | FSM_misc.h:137-145 | fsm_64b66b_encoder_t: slot DLY_66B_ENCODER, converts by `_66b_t(in_blk)`, starts not ready |
| Coding.NewDecoder | FSM_misc.h:150-158 | fsm_66b64b_decoder_t: slot DLY_66B_DECODER, drops the header, starts not ready |
| Coding.NewScrambler | FSM_misc.h:163-174 | fsm_scrambler_t: slot DLY_SCRAMBLER, passes the block unchanged, starts not ready |
| Coding.NewDescrambler | FSM_misc.h:177-188 | fsm_descrambler_t: slot DLY_DESCRAMBLER, passes the block unchanged, starts not ready |
| Coding.NewMpcpRx | FSM_MPCP.h:163-172 | fsm_mpcp_rx_t (and the NG-EPON one, whose slot is a parameter): passes the frame unchanged, starts not ready |
| Stages.UpstreamSlots | FSM_base.h:126-142 | the fifteen 10G-EPON delay slots in upstream order are 0 to DELAY_ARRAY_SIZE - 1 |
| Stages.UpstreamHops | FSM_base.h:126-142 | a unit's trip visits every slot once, in upstream order, at the given clocks |
| Stages.UpstreamDelaysAddUp | FSM_base.h:170-178 | a unit that passes all fifteen stages, none holding it 2^15 byte times or more, carries samples that add up to its end-to-end latency |
| Stages.Latch.constructor | FSM_base.h:375-378 | a new stage is not ready |
| Stages.Latch.ReceiveUnit | FSM_misc.h:140-144 | the pass-through ReceiveUnit: the output buffer holds the converted input and the stage is ready |
| Stages.Latch.TransmitUnit | FSM_base.h:367-371 | the default TransmitUnit returns the buffered unit, keeps it buffered, and clears output_ready |
| Stages.Latch.Output | FSM_base.h:385-390 | the output operator: TransmitUnit, then the unit's delay measurement in the stage's slot at the current clock |
| Mac.IpgBytesBounds | FSM_MAC.h:37-42 | the deficit idle count stays in [0, 3], each gap is 9 to 15 bytes, the packet plus its gap fills whole columns, and the gap is 2 or 3 idle columns |
| Mac.IpgRunAverages | FSM_MAC.h:37-42 | over any run of packets the gaps total 12 bytes per packet plus the initial deficit minus the final one, so they average the minimum gap within 3 bytes |
| Mac.TxReceive | FSM_MAC.h:48-58 | a busy MAC (frame_bytes > 0) ignores the frame; a ready one latches the frame size plus the preamble and the frame's timestamp |
| Mac.TxDataPhase | FSM_MAC.h:68-99 | while transmitting with m columns left, the next m columns are the D columns and the T column, after which the gap is owed and the frame is gone |
| Mac.FrameTrace | FSM_MAC.h:63-138 | a frame latched by an idle MAC goes out as one idle column, then S, ceil(b/4) - 2 D and T with consecutive sequence numbers and the frame's timestamp; the MAC is then ready and owes 2 or 3 idle columns |
| Mac.GapTrace | FSM_MAC.h:104-114 | after a frame, exactly the required number of idle columns follow and the MAC ends idle |
| Mac.FrameThenGap | FSM_MAC.h:63-138 | one whole cycle: idle column, the frame's columns, a 2- or 3-column gap; the MAC ends idle and ready with the sequence number moved on by the frame's column count |
| Mac.GapColumns | FSM_MAC.h:104-114 | each gap column is an idle column that also sizes the latched frame (`data_columns = BLOCKS_ROUND_UP(frame_bytes)`), so j gap columns leave j fewer owed and the frame sized |
| Mac.LatchedInGap | FSM_MAC.h:104-124 | a frame latched while a gap is owed goes out as the rest of the gap and then S, D..., T directly, with no sizing column, ending in the after-frame state |
| Mac.BackToBack | FSM_MAC.h:63-138 | a second frame handed over during the first frame's gap is latched straight away; between the two T columns come exactly the g gap idle columns and the second frame's columns numbered on from the first T; the gap and deficit afterwards follow IpgRun over the two sizes |
| Mac.FrameColumnsNumbered | FSM_MAC.h:94-123 | the columns of a frame carry consecutive sequence numbers and the T column carries the start number plus the column count |
| Mac.InitialTxState | FSM_MAC.h:142-150 | the corrected constructor's state is idle and ready |
| Mac.AsWrittenRefusesFirstFrame | FSM_MAC.h:142-150 | with frame_bytes left unassigned and holding 100, the new MAC drops the first frame it is given and starts a phantom frame with timestamp 0 |
| Mac.InitialTxStateTakesFrame | FSM_MAC.h:142-150 | with frame_bytes zeroed, the new MAC latches the first frame's size plus preamble and its timestamp |
| Mac.MacTx.constructor | FSM_MAC.h:142-150 | every counter zero, not transmitting, and frame_bytes zeroed as well |
| Mac.MacTx.MacReady | FSM_MAC.h:157 | ready exactly when no frame is latched |
| Mac.MacTx.CalculateIpg | FSM_MAC.h:37-42 | returns the gap and moves the deficit as the deficit idle count rule says; the gap is 9 to 15 bytes and ends on a column boundary; nothing else changes |
| Mac.MacTx.ReceiveUnit | FSM_MAC.h:48-58 | the new state is TxReceive of the old one |
| Mac.MacTx.TransmitUnit | FSM_MAC.h:63-138 | returns the column and moves to the state of the step function whose traces the lemmas above describe; the deficit stays in [0, 3] |
| Mac.RxReceive | FSM_MAC.h:177-212 | E and P columns are ignored; a C column ends a frame being received and sets ready; any other column is added to the frame, marks receiving and resynchronises the expected sequence number to the column's |
| Mac.RxRebuildsPrefix | FSM_MAC.h:177-212 | after the first k columns of a transmitted frame, RX is receiving, holds k columns' bytes with the frame's timestamp, and expects the next sequence number |
| Mac.RxRebuildsFrame | FSM_MAC.h:177-212 | a transmitted frame followed by an idle column is rebuilt completely (4 bytes per column, TX's timestamp), ready is set, and RX's sequence number is in step with TX's whatever it was before |
| Mac.RebuiltFrameSize | FSM_MAC.h:129-131 | the rebuilt frame is the latched byte count rounded up to whole columns: at most 3 bytes more |
| Mac.MacRx.constructor | FSM_MAC.h:215-220 | not receiving, expected sequence 0, empty frame, not ready |
| Mac.MacRx.ReceiveUnit | FSM_MAC.h:177-212 | the new state is RxReceive of the old one |
| Mac.MacRx.TransmitUnit | FSM_base.h:367-371 | returns the rebuilt frame and clears ready; nothing else changes |
| Mac.NgRxReceive | FSM_NGEPON_MAC.h:182-237 | every column bumps BlockCountIn; every numbered column advances the expected number before the type test; E, X, Y and P are then ignored; C ends a frame in progress, keeping the frame and setting ready, and otherwise changes nothing more; other columns are added and resynchronise the number |
| Mac.NgRxRebuildsPrefix | FSM_NGEPON_MAC.h:182-237 | after the first k columns of a transmitted frame, RX holds k columns' bytes, expects TX's next number, and has counted k more columns |
| Mac.NgRxRebuildsFrame | FSM_NGEPON_MAC.h:182-237 | the NG-EPON receiver rebuilds the same frame, sets ready, in step with TX, and counts one per column including the idle |
| Mac.NgMacRx.constructor | FSM_NGEPON_MAC.h:239-246 | not receiving, sequence 0, BlockCountIn 0, empty frame, not ready |
| Mac.NgMacRx.ReceiveUnit | FSM_NGEPON_MAC.h:182-237 | the new state is NgRxReceive of the old one |
| Mac.NgMacRx.TransmitUnit | FSM_base.h:367-371 | returns the rebuilt frame and clears ready |
| Mpcp.LineTimeFormula | FSM_MPCP.h:30-38 | sending n bytes from payload position pos takes n byte times plus one parity section per payload boundary crossed, (pos + n) / FEC_PAYLOAD_BYTES of them |
| Mpcp.FecOverheadIsLineTime | FSM_MPCP.h:30-38 | FEC_Overhead rounds the length up to under one column more and returns exactly the byte-by-byte line time of the rounded length from the current codeword position |
| Mpcp.TickRunClock | FSM_MPCP.h:115-124 | k clock ticks move the codeword position by k modulo the codeword length and run the timer down by k, stopping at 0; nothing else changes |
| Mpcp.ChannelBusyForTimer | FSM_MPCP.h:154-157 | with no frame held, the channel is ready after k ticks exactly when k reaches the timer |
| Mpcp.GatesExclusive | FSM_MPCP.h:142-157 | the output gate and the channel-ready test never hold together; the 10G-EPON gate implies the NG-EPON one; once the timer is 0 exactly one of the NG-EPON gate and channel-ready holds |
| Mpcp.NgGateIgnoresCodewordPosition | FSM_NGEPON_MPCP.h:124-129 | at codeword position 220 (inside the parity section) the NG-EPON gate opens where the 10G-EPON gate stays closed |
| Mpcp.Transmit10G | FSM_MPCP.h:62-95 | the held frame is given out, no frame is held any more, the grant flag is cleared, and a grant start restarts the codeword position at 16 |
| Mpcp.Transmit10GLineTime | FSM_MPCP.h:62-95 | a frame handed over when the gate is open starts on a column boundary inside the payload, and the timer is set to the line time of the frame's data plus the tail guard rounded up to columns |
| Mpcp.TransmitNg | FSM_NGEPON_MPCP.h:47-77 | the held frame is given out, no frame is held, the grant flag is cleared, a grant start restarts the position at 16; the timer it sets is stated by CycleNg |
| Mpcp.Receive | FSM_MPCP.h:44-51 | the frame is latched and marked available whether or not the channel was ready; nothing else changes |
| Mpcp.Cycle10G | FSM_MPCP.h:44-124 | a frame latched on a ready channel and given out through the open gate comes out unchanged, and the channel is ready again after exactly the timer's ticks |
| Mpcp.CycleNg | FSM_NGEPON_MPCP.h:28-92 | a frame latched on a ready NG-EPON channel is given out at once whatever the codeword position, comes out unchanged, and keeps the channel busy for exactly size − E_HEADER_BYTES − CHECKSUM_BYTES + TAIL_GUARD ticks, with no column rounding and no FEC parity |
| Mpcp.LineTimeNonNegative | FSM_MPCP.h:30-38 | the line time of n bytes is at least n |
| Mpcp.MpcpTx.constructor | FSM_MPCP.h:104-110 | position 0, timer 0, no frame, no grant: the channel is ready |
| Mpcp.MpcpTx.OutputReady | FSM_MPCP.h:142-146 | timer 0, a frame held, the position on a column boundary and inside the payload or at a grant start |
| Mpcp.MpcpTx.ChannelReady | FSM_MPCP.h:154-157 | timer 0 and no frame held |
| Mpcp.MpcpTx.ReceiveUnit | FSM_MPCP.h:44-51 | the new state is Receive of the old one |
| Mpcp.MpcpTx.TransmitUnit | FSM_MPCP.h:62-95 | returns the frame and moves to the state Transmit10G gives |
| Mpcp.MpcpTx.IncrementByteClock | FSM_MPCP.h:115-124 | the new state is one tick of the old one; the position stays inside a codeword |
| Mpcp.NgMpcpTx.constructor | FSM_NGEPON_MPCP.h:86-92 | position 0, timer 0, no frame, no grant |
| Mpcp.NgMpcpTx.OutputReady | FSM_NGEPON_MPCP.h:124-129 | timer 0 and a frame held, whatever the position |
| Mpcp.NgMpcpTx.ChannelReady | FSM_NGEPON_MPCP.h:137-140 | timer 0 and no frame held |
| Mpcp.NgMpcpTx.ReceiveUnit | FSM_NGEPON_MPCP.h:28-36 | the new state is Receive of the old one |
| Mpcp.NgMpcpTx.TransmitUnit | FSM_NGEPON_MPCP.h:47-77 | returns the frame and moves to the state TransmitNg gives |
| Mpcp.NgMpcpTx.IncrementByteClock | FSM_NGEPON_MPCP.h:97-106 | the new state is one tick of the old one |
| MacClient.InitialClient | FSM_misc.h:64-75 | no frames sent, none scheduled, and the first frame due after BURST_GAP_BYTES in burst mode (an ONU) or MIN_IPG_BYTES otherwise (the OLT) |
| MacClient.Tick | FSM_misc.h:83-87 | a running countdown goes down by one and stops at 0; the frame count and the scheduled flag are untouched |
| MacClient.Schedule | FSM_misc.h:97-127 | afterwards a frame is always scheduled, and the answer is exactly whether the countdown has run out |
| MacClient.Transmit | FSM_misc.h:43-59 | the frame is counted, the scheduler unlocked, and the frame carries the clock's timestamp and the injected packet size |
| MacClient.InvInitial | FSM_misc.h:64-75 | the constructor's state keeps the countdown in [0, BURST_GAP_BYTES] |
| MacClient.InvPreserved | FSM_misc.h:83-127 | ticks, scheduling and transmits keep the countdown in [0, BURST_GAP_BYTES], so the 16-bit counter cannot overflow |
| MacClient.ScheduleIdempotent | FSM_misc.h:104-126 | while a frame is waiting FrameAvailable changes nothing, so asking twice gives the same answer and state as asking once |
| MacClient.TickRunCountsDown | FSM_misc.h:83-87 | k ticks run the countdown down by k, stopping at 0 |
| MacClient.BurstGap | FSM_misc.h:119-123 | after the last frame of a burst the next one becomes available exactly after BURST_GAP_BYTES ticks, and it starts a new burst (GrantStart holds) |
| MacClient.BackToBack | FSM_misc.h:97-127 | outside burst mode a frame is available again straight after the previous one is taken |
| MacClient.Client.constructor | FSM_misc.h:64-75 | the state is InitialClient of the burst mode given |
| MacClient.Client.GrantStart | FSM_misc.h:77 | true exactly when the frame just sent is the first of its burst |
| MacClient.Client.IncrementMacClientClock | FSM_misc.h:83-87 | the new state is one tick of the old one |
| MacClient.Client.FrameAvailable | FSM_misc.h:97-127 | the new state and the answer are those of Schedule |
| MacClient.Client.TransmitUnit | FSM_misc.h:43-59 | the new state and the frame are those of Transmit |
| Lanes.LaneTx.constructor | FSM_XGMII.h:57-60 | lane counter 0, not ready, nothing received |
| Lanes.LaneTx.ReceiveUnit | FSM_XGMII.h:28-41 | the column goes into lane column_count, the counter flips, and the second column of a pair makes the stage ready; at each pair boundary the vector holds the last two columns in arrival order |
| Lanes.LaneTx.TransmitUnit | FSM_XGMII.h:46-53 | returns the stored vector and clears ready; nothing else changes |
| Lanes.ToggleIndex | FSM_XGMII.h:85 | the lane index stays 0 or 1 and changes on every call |
| Lanes.LaneRx.constructor | FSM_XGMII.h:90-94 | lane index 0 and ready from the start |
| Lanes.LaneRx.ReceiveUnit | FSM_XGMII.h:75-78 | stores the vector; index and ready untouched |
| Lanes.LaneRx.TransmitUnit | FSM_XGMII.h:83-86 | toggles the index and returns that lane of the stored vector |
| Lanes.BothLanes | FSM_XGMII.h:83-86 | two transmits in a row give the two lanes of the vector, one each, and restore the index |
| Lanes.HopStep | data_path.h:226-237 | on an even iteration RX keeps its vector and gives lane 1, on an odd one it takes the pair just completed by TX and gives lane 0 |
| Lanes.HopIteration | data_path.h:220-237 | one driver iteration: TX takes the column, a completed vector goes through TX's output operator (both lanes measured) into RX, and RX's output operator gives the iteration's output column |
| Lanes.Loopback | data_path.h:220-237 | the driver's TX-to-RX hop through both output operators gives out as many columns as went in: a measured idle column, then every input column in order, one column late, with its type and sequence number kept and stamped at the iteration's clock |
| Lanes.HopDelays | FSM_base.h:385-390 | each column out of the hop carries two new samples: in TX's slot the wait until its pair left TX, in RX's slot its wait in RX; its other samples are kept |
| Queues.Queue.QMap | _queue.h:24-28 | the logical index maps to head plus index, wrapping once at the limit, and always lands inside the array |
| Queues.Queue.constructor | _queue.h:33-38 | an empty queue whose limit is the requested one capped at SIZE |
| Queues.Queue.SetLimit | _queue.h:41-46 | the limit becomes min(limit, SIZE) and a queue longer than that keeps only its oldest limit entries |
| Queues.Queue.IsEmpty | _queue.h:49 | true exactly when the queue holds nothing |
| Queues.Queue.IsFull | _queue.h:50 | true exactly when the queue holds limit entries |
| Queues.Queue.GetSize | _queue.h:51 | the number of entries queued |
| Queues.Queue.Clear | _queue.h:52 | the queue becomes empty; head and limit stay |
| Queues.Queue.Peek | _queue.h:54-57 | the entry at that position from the oldest |
| Queues.Queue.Add | _queue.h:59-62 | the item is appended when there is room; a full queue is left exactly as it was |
| Queues.Queue.Get | _queue.h:64-73 | a non-empty queue gives its oldest entry and loses it; an empty one gives whatever the head slot holds and is left unchanged |
| Queues.Queue.Set | _queue.h:75-78 | overwrites the entry at that position when it exists, otherwise changes nothing |
| ReconciliationTx.InitialRx | FSM_NGEPON_RS.h:194-220 | the constructor's input side: cursors, counters and the RECEIVE_WORD flag cleared, which satisfies the input invariant for every payload size of at least 2 |
| ReconciliationTx.InitialTx | FSM_NGEPON_RS.h:194-220 | the constructor's output side: no grant, both transfer flags cleared, cursors 0, which satisfies the output invariant |
| ReconciliationTx.InitialBuffer | FSM_NGEPON_RS.h:206-210 | eight entries of PAYLOAD_SIZE cleared columns |
| ReconciliationTx.Grant | FSM_NGEPON_RS.h:41-49 | a grant can be extended but never truncated: the result is the larger of the grant left and the request |
| ReconciliationTx.StoreEntry | FSM_NGEPON_RS.h:99-108 | the entry a payload word goes to stays a 3-bit cursor; corrected, it is the entry whose header was just written |
| ReconciliationTx.RxStep | FSM_NGEPON_RS.h:66-118 | one ReceiveUnit keeps the cursor 3-bit and the codeword's word cursor inside the codeword, adds one to BlockCountIn and adds one to BlockSequenceIn exactly for D, S and T columns |
| ReconciliationTx.RxStart | FSM_NGEPON_RS.h:76-85 | starting a codeword keeps the invariant and touches neither counter |
| ReconciliationTx.RxCount | FSM_NGEPON_RS.h:90-92 | BlockCountIn goes up by one, BlockSequenceIn by one exactly for D, S and T columns, nothing else changes |
| ReconciliationTx.RxStore | FSM_NGEPON_RS.h:99-108 | storing a word keeps the invariant and touches neither counter |
| ReconciliationTx.Placeholders | FSM_NGEPON_RS.h:175-189 | n parity placeholder (Y) columns |
| ReconciliationTx.TxStep | FSM_NGEPON_RS.h:127-192 | one TransmitUnit keeps the output invariant (at most one transfer phase, word cursor inside it), and with no grant and no transfer sends an idle column and changes nothing |
| ReconciliationTx.Select | FSM_NGEPON_RS.h:146-154 | selecting an entry enters the payload phase at word 0 and keeps the read cursor 3-bit |
| ReconciliationTx.Emit | FSM_NGEPON_RS.h:156-189 | sending one word keeps the output invariant |
| ReconciliationTx.TxRun | FSM_NGEPON_RS.h:127-192 | n transmits give n columns and keep the output invariant |
| ReconciliationTx.ParityRun | FSM_NGEPON_RS.h:175-189 | from placeholder j the remaining PARITY_SIZE - j placeholders go out and the stage is idle |
| ReconciliationTx.PayloadRun | FSM_NGEPON_RS.h:156-189 | from word j the rest of the entry goes out in order, then the placeholders, and the stage is idle |
| ReconciliationTx.TransmitCodeword | FSM_NGEPON_RS.h:127-192 | from idle with a grant, PAYLOAD_SIZE + PARITY_SIZE transmits send the read entry's words then the placeholders, use one codeword of the grant and advance the read cursor by one |
| ReconciliationTx.FillRun | FSM_NGEPON_RS.h:99-108 | while a codeword fills from word k, the next PAYLOAD_SIZE - k columns become its words k.. in order and close it, and both counters account for them |
| ReconciliationTx.FillCodeword | FSM_NGEPON_RS.h:66-118 | from a ready ring, PAYLOAD_SIZE - 1 columns make the write entry its header followed by the columns, and advance the write cursor by one |
| ReconciliationTx.CodewordRoundTrip | FSM_NGEPON_RS.h:66-192 | columns gathered into a codeword come out, once granted, unchanged and in order behind their header and ahead of the parity placeholders |
| ReconciliationTx.AsWrittenMisplacesWords | FSM_NGEPON_RS.h:79-105 | as written, the first payload word lands in word 1 of the entry after the header's, and the header's own word 1 is not written |
| ReconciliationTx.ReadyCountsOutstanding | FSM_NGEPON_RS.h:55-58 | the ready test taken modulo the ring holds exactly when fewer than four codewords wait, for every count the window allows |
| ReconciliationTx.AsWrittenWindowWraps | FSM_NGEPON_RS.h:55-58 | as written, four waiting codewords after the write cursor wraps (entries 4 to 7) still pass the test, and every wrapped cursor pair passes it |
| ReconciliationTx.RsTx.constructor | FSM_NGEPON_RS.h:194-220 | every link's cursors and grant 0, the flags cleared, counters 0, the buffer cleared |
| ReconciliationTx.RsTx.CbCtrlRequest | FSM_NGEPON_RS.h:41-49 | the named link's grant becomes Grant of its old value and the request; the other links' grants stay |
| ReconciliationTx.RsTx.IsReadyForMoreData | FSM_NGEPON_RS.h:55-58 | corrected (## Findings row 3): the window test on the link's cursors taken modulo 8; nothing changes |
| ReconciliationTx.RsTx.StartCodeword | FSM_NGEPON_RS.h:76-85 | corrected (## Findings row 3): the new input state and buffer are those of RxStart with a window test taken modulo 8, where the source compares the plain cursor difference; the other links are untouched |
| ReconciliationTx.RsTx.ReceiveWord | FSM_NGEPON_RS.h:99-108 | corrected (## Findings row 2): the new input state and buffer are those of RxStore, with the word stored in the entry whose header was just written, where the source uses the advanced write cursor |
| ReconciliationTx.RsTx.ReceiveUnit | FSM_NGEPON_RS.h:66-118 | corrected (## Findings rows 2 and 3): the new input state and buffer are those of RxStep in its corrected form (modulo-8 window, payload words in the header's entry); the output side and the other links are untouched |
| ReconciliationTx.RsTx.CountColumn | FSM_NGEPON_RS.h:90-92 | the new input state is RxCount of the old one |
| ReconciliationTx.RsTx.SelectBufferEntry | FSM_NGEPON_RS.h:146-154 | the new output state is Select of the old one |
| ReconciliationTx.RsTx.TransferWord | FSM_NGEPON_RS.h:156-189 | the new output state and the column are those of Emit |
| ReconciliationTx.RsTx.TransmitUnit | FSM_NGEPON_RS.h:127-192 | the new output state and the column are those of TxStep; the input side and the buffer are untouched |
| ReconciliationTx.Zeroed | FSM_NGEPON_RS.h:197-204 | a fresh array of eight zeros |
| ReconciliationTx.ClearedBuffer | FSM_NGEPON_RS.h:206-210 | a fresh 8 x 8 x PAYLOAD_SIZE array of cleared columns |
| IdleDeletion.InitialId | FSM_ID.h:54-59 | all three counters 0, which satisfies the stage invariant, and not ready |
| IdleDeletion.OltReceive | FSM_ID.h:26-51 | the codeword position stays in [0, FEC_DSIZE), and the stage is ready afterwards exactly when the vector was not dropped, that is unless it is idle or errored while deletions are owed |
| IdleDeletion.OltReceiveCases | FSM_ID.h:26-51 | a dropped vector is idle or errored and only uses one owed deletion; a forwarded one becomes the output, resets or extends the idle run, and wraps the position exactly at FEC_DSIZE |
| IdleDeletion.OltRun | FSM_ID.h:26-51 | a run forwards or drops every vector: forwarded plus dropped equals the input length |
| IdleDeletion.DeletionBudget | FSM_ID.h:44-50 | over any run, the position is the forwarded count modulo FEC_DSIZE, and deletions made plus deletions owed equal FEC_PSIZE per FEC_DSIZE vectors forwarded |
| IdleDeletion.OnlyIdlesDeleted | FSM_ID.h:28-43 | only idle or errored vectors are dropped: the other vectors all come out, in order |
| IdleDeletion.OltIdleDeletion.constructor | FSM_ID.h:54-59 | the state is InitialId |
| IdleDeletion.OltIdleDeletion.ReceiveUnit | FSM_ID.h:26-51 | the new state is OltReceive of the old one |
| IdleDeletion.OltIdleDeletion.TransmitUnit | FSM_base.h:367-371 | returns the output vector and clears ready; the counters are untouched |
| IdleDeletion.InitialOnu | FSM_ID.h:118-121 | the OLT stage's initial state and no shift |
| IdleDeletion.Shift | FSM_ID.h:97-105 | the held column goes out in lane 0, lane 0 moves to lane 1, and lane 1 is held back |
| IdleDeletion.Align | FSM_ID.h:71-107 | alignment keeps the counter invariant and never touches the output buffer or the ready flag |
| IdleDeletion.OnuReceive | FSM_ID.h:112-115 | align, then the OLT ReceiveUnit; the invariant is kept |
| IdleDeletion.BetweenBursts | FSM_ID.h:76-81 | after more than DELAY_BOUND idle vectors, a vector with no start in lane 1 passes unshifted and the shift and FEC counters are reset (position 2, no deletions owed) |
| IdleDeletion.StartShiftAligns | FSM_ID.h:76-105 | a burst starting in lane 1 goes out as a default column then lane 0, the start column is held, and it leads lane 0 of the next output vector |
| IdleDeletion.ShiftingInBurst | FSM_ID.h:97-105 | inside a burst each vector is half-shifted and only the held column changes |
| IdleDeletion.Columns | FSM_ID.h:97-105 | two columns per vector |
| IdleDeletion.ShiftRun | FSM_ID.h:97-105 | one output vector per input vector |
| IdleDeletion.ShiftDelaysOneColumn | FSM_ID.h:97-105 | the half shift delays the column stream by exactly one column: output columns plus the held column equal the first held column plus the input columns |
| IdleDeletion.OnuIdleDeletion.constructor | FSM_ID.h:118-121 | the state is InitialOnu, with a default held column |
| IdleDeletion.OnuIdleDeletion.AlignVector | FSM_ID.h:71-107 | the new state and the vector are those of Align |
| IdleDeletion.OnuIdleDeletion.ReceiveUnit | FSM_ID.h:112-115 | the new state is OnuReceive of the old one |
| IdleInsertion.FifoIiSizeValue | FSM_II.h:18 | FIFO_II_SIZE is 41: ten codewords' parity for the longest frame, plus one |
| IdleInsertion.IdleFill | FSM_II.h:16 | n idle vectors |
| IdleInsertion.IiReceive | FSM_II.h:30-45 | the FIFO never exceeds FIFO_II_SIZE |
| IdleInsertion.IiTransmit | FSM_II.h:50-57 | an empty FIFO gives an idle vector and stays empty; otherwise the oldest vector leaves |
| IdleInsertion.ReceiveShape | FSM_II.h:30-45 | a full FIFO drops the vector; otherwise the queued vectors are kept, some idle vectors are inserted (only in front of a start or idle vector) and the vector is appended, and after padding the FIFO is full |
| IdleInsertion.LockStepDelays | FSM_II.h:30-67 | one receive and one transmit per vector from the constructor's fill level make the stage a delay line: nothing is dropped or padded, and output is the queued vectors followed by the input |
| IdleInsertion.ReceiveInRoom | FSM_II.h:30-45 | one below the padding level, a vector is simply appended |
| IdleInsertion.IdleInsertion.constructor | FSM_II.h:61-67 | the FIFO holds FIFO_II_SIZE - 1 idle vectors and the stage is ready |
| IdleInsertion.IdleInsertion.ReceiveUnit | FSM_II.h:30-45 | the FIFO's new contents are IiReceive of the old |
| IdleInsertion.IdleInsertion.TransmitUnit | FSM_II.h:50-57 | the FIFO's new contents and the vector are those of IiTransmit |
| FecDecoder.InitialDec | FSM_FEC.h:71-77 | both buffers empty, parity counter 0, not ready |
| FecDecoder.AdmitKeepsNewest | FSM_FEC.h:52-56 | the input buffer always holds the newest min(n + 1, FEC_DSIZE) blocks received: a full buffer evicts its oldest |
| FecDecoder.Swap | FSM_FEC.h:31-41 | the swap keeps the invariant and leaves the parity counter below FEC_PSIZE |
| FecDecoder.Process | FSM_FEC.h:46-56 | processing a block keeps the counter in [0, FEC_PSIZE] and both buffers within FEC_DSIZE |
| FecDecoder.DecReceive | FSM_FEC.h:26-57 | a receive keeps the invariant |
| FecDecoder.DecTransmit | FSM_FEC.h:62-66 | a transmit keeps the invariant |
| FecDecoder.TransmitReady | FSM_FEC.h:62-66 | after a transmit output_ready holds exactly when a block is left; the oldest block was removed; the input side is untouched |
| FecDecoder.DecRun | FSM_FEC.h:26-57 | any run of receives keeps the invariant |
| FecDecoder.Parities | FSM_FEC.h:49-50 | n parity blocks |
| FecDecoder.CollectData | FSM_FEC.h:52-56 | protected blocks collect in the input buffer in order while no parity has been seen |
| FecDecoder.CountParity | FSM_FEC.h:49-50 | parity blocks only advance the counter |
| FecDecoder.Codeword | FSM_FEC.h:26-57 | FEC_DSIZE protected blocks then FEC_PSIZE parity blocks leave the codeword in the input buffer; the next receive hands it to the output buffer, sets ready and starts the next codeword in the other buffer |
| FecDecoder.DecRunAppend | FSM_FEC.h:26-57 | a run over two streams is the run over the first followed by the run over the second |
| FecDecoder.FecDecoderStage.constructor | FSM_FEC.h:71-77 | two fresh empty FEC_DSIZE-block queues, fifo_in on the first and fifo_out on the second |
| FecDecoder.FecDecoderStage.ReceiveUnit | FSM_FEC.h:26-57 | the new state is DecReceive of the old one |
| FecDecoder.FecDecoderStage.SwapBuffers | FSM_FEC.h:31-41 | the new state is Swap of the old one |
| FecDecoder.FecDecoderStage.AdmitBlock | FSM_FEC.h:52-56 | the input buffer becomes Admit of its old contents and the block |
| FecDecoder.FecDecoderStage.TransmitUnit | FSM_FEC.h:62-66 | the new state is DecTransmit of the old one, and the block is the oldest of the output buffer when it had one |
| DataDetector.FifoSizes | FSM_DD.h:14-15 | FIFO_DD_OLT_SIZE is 45 (eleven codewords' parity, plus one) and FIFO_DD_ONU_SIZE is 110 (DELAY_BOUND + 45) |
| DataDetector.Repeat | FSM_DD.h:18-22 | n copies of the block |
| DataDetector.Take | FSM_DD.h:57-62 | an empty FIFO gives a default block and stays empty; otherwise the oldest block leaves |
| DataDetector.Drain | FSM_DD.h:57-62 | n takes give n blocks, and when the FIFO holds at least n they are its oldest n, in order |
| DataDetector.FecTransmit | FSM_DD.h:42-78 | one FEC_IS_ON or TRANSMIT_PARITY step stays in the FEC phases with the protected count in [0, FEC_DSIZE] and the parity count in [0, FEC_PSIZE] |
| DataDetector.FecRun | FSM_DD.h:42-78 | n steps give n blocks and keep the framing invariant |
| DataDetector.FecRunStep | FSM_DD.h:42-78 | a run of n + 1 steps is one step followed by a run of n |
| DataDetector.ParityRun | FSM_DD.h:68-78 | from parity block j the remaining FEC_PSIZE - j parity blocks go out and a codeword starts; the FIFO is untouched |
| DataDetector.DataRun | FSM_DD.h:42-78 | from protected block j the next FEC_DSIZE - j blocks of the FIFO go out, then FEC_PSIZE parity blocks, and a codeword starts |
| DataDetector.FecCycle | FSM_DD.h:42-78 | from a codeword's start, FEC_DSIZE + FEC_PSIZE transmits send the FIFO's next FEC_DSIZE blocks (default blocks once it is empty) then FEC_PSIZE parity blocks, and the next codeword starts |
| DataDetector.InitialOltFec | FSM_DD.h:104-110 | the constructor's framing is in FEC_IS_ON and satisfies the framing invariant |
| DataDetector.OltDdReceive | FSM_DD.h:83-95 | a full FIFO drops the block, otherwise it is appended |
| DataDetector.OltDataDetector.constructor | FSM_DD.h:104-110 | FEC_IS_ON at a codeword's start, an empty FIFO, ready |
| DataDetector.OltDataDetector.StateFecIsOn | FSM_DD.h:42-63 | the new framing, FIFO and block are those of FecTransmit |
| DataDetector.OltDataDetector.StateTransmitParity | FSM_DD.h:68-78 | the new framing, FIFO and block are those of FecTransmit |
| DataDetector.OltDataDetector.ReceiveUnit | FSM_DD.h:83-95 | the FIFO's new contents are OltDdReceive of the old |
| DataDetector.OltDataDetector.TransmitUnit | FSM_DD.h:100 | the new framing, FIFO and block are those of FecTransmit |
| DataDetector.InitialOnuDd | FSM_DD.h:287-297 | laser off, not transmitting, and the ONU invariant holds |
| DataDetector.OffStep | FSM_DD.h:137-149 | sends the sync pattern and moves to the preamble exactly when a burst is pending |
| DataDetector.PreambleStep | FSM_DD.h:154-163 | sends the sync pattern and counts it |
| DataDetector.DelimiterStep | FSM_DD.h:168-175 | sends the burst delimiter and starts a codeword |
| DataDetector.ParityStep | FSM_DD.h:206-217 | sends a parity block |
| DataDetector.LaserOffEntry | FSM_DD.h:222-233 | LASER_OFF clears the laser flag, zeroes the terminator count and hands over to the terminator |
| DataDetector.TerminatorStep | FSM_DD.h:238-247 | sends a zero block, counts it, and turns the laser off after TERMINATOR_LENGTH of them |
| DataDetector.DataStep | FSM_DD.h:180-201 | one FEC_IS_ON step keeps the ONU invariant |
| DataDetector.OnuDdTransmit | FSM_DD.h:137-247 | any state's step keeps the ONU invariant and leaves the idle count alone |
| DataDetector.OnuDdRun | FSM_DD.h:137-247 | n transmits give n blocks and keep the invariant |
| DataDetector.OnuDdReceive | FSM_DD.h:252-279 | the FIFO never exceeds FIFO_DD_ONU_SIZE and the framing and burst counters are untouched |
| DataDetector.ReceiveBetweenBursts | FSM_DD.h:252-279 | between bursts a control block keeps only the newest two queued blocks plus itself and extends the idle run; a data block starts a burst and resets the idle count to -1 |
| DataDetector.LaserStaysOff | FSM_DD.h:137-149 | with no burst pending the detector sends the sync pattern and stays put |
| DataDetector.OnuDdRunStep | FSM_DD.h:284 | a run of n + 1 transmits is one transmit followed by a run of n |
| DataDetector.OnuDdRunAppend | FSM_DD.h:284 | a run of m + n transmits is a run of m followed by a run of n |
| DataDetector.PreambleRun | FSM_DD.h:154-163 | from sync block j the preamble sends SYNC_LENGTH - j more sync patterns and moves to the delimiter |
| DataDetector.BurstStart | FSM_DD.h:137-175 | once a burst is pending, SYNC_LENGTH + 2 transmits send SYNC_LENGTH + 1 sync patterns and the delimiter, and a codeword starts |
| DataDetector.ParityExit | FSM_DD.h:206-217 | after the last parity block, more than DELAY_BOUND idle blocks end the burst; otherwise a new codeword starts |
| DataDetector.BurstEnd | FSM_DD.h:222-247 | LASER_OFF and the terminator send TERMINATOR_LENGTH zero blocks and leave the laser off and no burst pending |
| DataDetector.OnuFramesAsFec | FSM_DD.h:180-217 | inside a burst that is not ending the ONU detector frames exactly as the OLT's FEC framing |
| DataDetector.OnuFecCycle | FSM_DD.h:180-217 | inside a burst, one codeword is the FIFO's next FEC_DSIZE blocks followed by FEC_PSIZE parity blocks |
| DataDetector.OnuDataDetector.constructor | FSM_DD.h:287-297 | the state is InitialOnuDd, with an empty FIFO, ready |
| DataDetector.OnuDataDetector.StateLaserIsOff | FSM_DD.h:137-149 | the new state and block are those of OffStep |
| DataDetector.OnuDataDetector.StateBurstPreamble | FSM_DD.h:154-163 | the new state and block are those of PreambleStep |
| DataDetector.OnuDataDetector.StateBurstDelimiter | FSM_DD.h:168-175 | the new state and block are those of DelimiterStep |
| DataDetector.OnuDataDetector.StateFecIsOn | FSM_DD.h:180-201 | the new state, FIFO and block are those of DataStep |
| DataDetector.OnuDataDetector.StateTransmitParity | FSM_DD.h:206-217 | the new state and block are those of ParityStep |
| DataDetector.OnuDataDetector.StateLaserOff | FSM_DD.h:222-233 | the new state and block are those of LASER_OFF followed by the terminator step |
| DataDetector.OnuDataDetector.StateBurstTerminator | FSM_DD.h:238-247 | the new state and block are those of TerminatorStep |
| DataDetector.OnuDataDetector.TransmitUnit | FSM_DD.h:284 | the new state, FIFO and block are those of OnuDdTransmit |
| DataDetector.OnuDataDetector.ReceiveUnit | FSM_DD.h:252-279 | the new state and FIFO are those of OnuDdReceive |

## Left out

- The simulation driver (`UpstreamTiming`, `DownstreamTiming`) and its statistics (`CollectStats`, `OutputStats`, `ClearStats`) in data_path.h are not modelled. The exception is the 25GMII transmit-to-receive hop, which `Lanes.Loopback` models with both output operators' delay measurements; the driver's hop is `fsm_ngepon_25gmii_tx_t` / `fsm_ngepon_25gmii_rx_t`, and its two slots DLY_NGEPON_25GMII_TX and DLY_NGEPON_25GMII_RX are parameters, because those indices are not defined in the repository's files. The `rand()`/`double` packet-size source is an injected value (`packetSize`).
- sim_output.h and sim_config.h (logging, feature switches, entry point) are not part of this model. `MSG_WARN` is a no-op: every warning path continues as the code does.
- The `SPARSE_TRAFFIC` random jitter in `FrameAvailable` is not modelled, because it draws from `rand()`. Neither is any `DEBUG_*` console trace or the negative-delay print of `MeasureDelay`, because they are output only.
- The process-wide clock of `timestamp_t` is a parameter (`now`) of every member that reads it.
- Fixed-width integers are unbounded. The exception is the `int16s` delay cast of `MeasureDelay`, modelled by `Blocks.Int16`. The MAC client's countdown and the 3-bit ring cursors are kept in range by proved invariants instead.
- MacClient.Client.TransmitUnit: the source's `exit(0)` on a countdown that has not run out is the precondition `frameReadyCounter <= 0`. The client's `ReceiveUnit` does nothing in the source and has no counterpart here.
- Queues.Queue.SetLimit: requires a head index of 0, which holds at its only caller, the constructor. A later limit change on a wrapped queue is not modelled. The limit must be at least 1.
- ReconciliationTx.RsTx: only link 0 carries data, as in the source. PAYLOAD_SIZE and PARITY_SIZE are constructor parameters and are not defined in the repository's files. The model requires PAYLOAD_SIZE >= 2, so that a codeword holds its header and at least one word, and PARITY_SIZE >= 1.
- ReconciliationTx.RsTx: the two-argument `_36b_t(LinkIndex, EntryWriteIndex)` header column is not defined in the repository's files. It is an injected function `header(link, entry)`. The selected entry `TX_DATA_CTRL_ENTRY`, which the constructor leaves unset, starts at 0; it is always set before it is read. `CodeWordsLeft` is unbounded rather than 32-bit.
- `fsm_ngepon_rs_rx_t` (FSM_NGEPON_RS.h:227-244) is not modelled, because it is an empty stub with no behaviour.
- X_BLOCK and Y_BLOCK are not defined in the repository's files. They are two extra block types with no bit value, and `Blocks.IsTypeIsBitTest` covers only the nine enumerated types.
- The DLY_NGEPON_* and DLY_25GMII_* delay slots are not defined in the repository's files. The NG-EPON stages take their slot as a parameter.
- IdleDeletion.OnuIdleDeletion: the held column `tx_next` is default-constructed in the source and starts as an idle column here. Inheritance is modelled by the ONU stage holding the OLT stage as a contained object.
- The `output_block`/`output_ready` fields a stage inherits but never uses are not modelled; idle insertion, the data detectors and the FEC decoder return their units directly.
- DataDetector: the `PMD_SIGNAL.request` laser calls, commented out in the source, are not modelled.
- FecDecoder.DecTransmit: Get on an empty `fifo_out` returns the queue's stale head slot. The pure step function leaves that block unspecified. `FecDecoder.FecDecoderStage.TransmitUnit` describes it through `Queues.Queue.Get`.
- DataDetector.OnuDdReceive: the source warns on a full FIFO and then calls `Add`, which does nothing; the model follows that.
- `MIN` and `SWAP` from _types.h, which is not part of this model, are written out inline.

## Findings

| source | as written | input that shows it | evidently intended | confidence | as-written member | corrected member |
|---|---|---|---|---|---|---|
| FSM_MAC.h:142-150 | the transmit MAC's constructor sets every counter except `frame_bytes`, which `MacReady` and `ReceiveUnit` test (the NG-EPON copy at FSM_NGEPON_MAC.h:142-151 does the same); the driver creates the MAC as a local object | `frame_bytes` holding 100 from the stack: the first frame is refused and a phantom frame with timestamp 0 is sent | `frame_bytes` starts at 0 like the other counters, so the first frame is latched | medium, not executed | Mac.AsWrittenRefusesFirstFrame | Mac.InitialTxStateTakesFrame |
| FSM_NGEPON_RS.h:79-105 | the header is written into entry `EntryWriteIndex`, the index is then advanced, and the payload words are written into the advanced entry | the first codeword: header in entry 0, its first payload word in word 1 of entry 1 | the payload words go into the entry whose header was just written, so a codeword leaves as header followed by its payload | high, not executed | ReconciliationTx.AsWrittenMisplacesWords | ReconciliationTx.CodewordRoundTrip |
| FSM_NGEPON_RS.h:55-58 | the back-pressure test is the plain difference `EntryWriteIndex - EntryReadIndex < 4` of two 3-bit cursors | entries 4 to 7 waiting, so write cursor 0 and read cursor 4: the difference is -4 and a fifth codeword is accepted, which goes on to overwrite entry 4 before it is sent | fewer than four codewords waiting, with the difference taken modulo 8 | high, not executed | ReconciliationTx.AsWrittenWindowWraps | ReconciliationTx.ReadyCountsOutstanding |
