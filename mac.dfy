/** The MAC transmit and receive stages. TX turns a latched frame into a
    column stream S, D..., T followed by the inter-packet gap, whose length
    follows the Deficit Idle Count rule of clause 46 of IEEE 802.3; RX
    rebuilds frames from columns and follows the sequence numbers. The
    10G-EPON and NG-EPON transmitters are the same algorithm; the two
    receivers count sequence numbers differently. */
module Mac {
  import opened Blocks

  // ---------------------------------------------------------------------
  // Deficit idle count
  // ---------------------------------------------------------------------

  /** CalculateIPGBytes: the gap after a packet of the given size, and the
      new deficit `(size + deficit) & 3`. A two's-complement `& 3` is the
      Euclidean remainder by 4, also for a negative sum. */
  function CalculateIpgBytes(deficit: int, packetSize: int): (r: (int, int)) {
    var newDeficit := (packetSize + deficit) % 4;
    (MinIpgBytes + deficit - newDeficit, newDeficit)
  }

  /** The gap keeps the deficit in [0, 3], lasts 9 to 15 bytes, and ends
      the packet on a column boundary. */
  lemma IpgBytesBounds(deficit: int, packetSize: int)
    requires 0 <= deficit <= 3
    ensures var (bytes, d) := CalculateIpgBytes(deficit, packetSize);
      && 0 <= d <= 3
      && 9 <= bytes <= 15
      && (packetSize + bytes) % 4 == 0
      && TruncDiv(bytes, ColumnBytes) in {2, 3}
  {
  }

  /** The gaps and final deficit after a run of packets. */
  function IpgRun(deficit: int, sizes: seq<int>): (r: (int, int))
    decreases |sizes|
  {
    if sizes == [] then (0, deficit)
    else
      var (bytes, d) := CalculateIpgBytes(deficit, sizes[0]);
      var (rest, last) := IpgRun(d, sizes[1..]);
      (bytes + rest, last)
  }

  /** Over a run of packets the gaps average the minimum gap: they total
      12 bytes per packet plus the initial deficit minus the final one,
      which is within 3 bytes of 12 per packet. */
  lemma {:induction false} IpgRunAverages(deficit: int, sizes: seq<int>)
    requires 0 <= deficit <= 3
    ensures var (total, last) := IpgRun(deficit, sizes);
      && 0 <= last <= 3
      && total == MinIpgBytes * |sizes| + deficit - last
      && MinIpgBytes * |sizes| - 3 <= total <= MinIpgBytes * |sizes| + 3
    decreases |sizes|
  {
    if sizes != [] {
      var (bytes, d) := CalculateIpgBytes(deficit, sizes[0]);
      IpgBytesBounds(deficit, sizes[0]);
      IpgRunAverages(d, sizes[1..]);
    }
  }

  // ---------------------------------------------------------------------
  // MAC TX
  // ---------------------------------------------------------------------

  datatype TxState = TxState(
    timestamp: Stamp,
    transmitting: bool,
    txSequence: int,
    frameBytes: int,
    dataColumns: int,
    idleDeficit: int,
    ipgRequired: int)

  /** MacReady: no frame is latched. */
  predicate TxReady(s: TxState) {
    s.frameBytes <= 0
  }

  /** ReceiveUnit: a busy MAC drops the frame; otherwise it latches the
      frame's size plus the preamble, and the frame's timestamp. */
  function TxReceive(s: TxState, frame: Frame): (r: TxState)
    ensures !TxReady(s) ==> r == s
    ensures TxReady(s) ==> r == s.(frameBytes := frame.size + PreambleBytes, timestamp := frame.stamp)
  {
    if !TxReady(s) then s
    else s.(frameBytes := frame.size + PreambleBytes, timestamp := frame.stamp)
  }

  /** TransmitUnit: the next column and the next state. */
  function TxTransmit(s: TxState): (TxState, Column) {
    if s.transmitting then
      if s.dataColumns == 1 then
        var (bytes, d) := CalculateIpgBytes(s.idleDeficit, s.frameBytes);
        (s.(ipgRequired := TruncDiv(bytes, ColumnBytes), idleDeficit := d, frameBytes := 0,
            dataColumns := 0, transmitting := false, txSequence := s.txSequence + 1),
         Column(s.timestamp, TBlock, s.txSequence + 1))
      else
        (s.(dataColumns := s.dataColumns - 1, txSequence := s.txSequence + 1),
         Column(s.timestamp, DBlock, s.txSequence + 1))
    else if s.ipgRequired > 0 then
      (s.(dataColumns := BlocksRoundUp(s.frameBytes, ColumnBytes), ipgRequired := s.ipgRequired - 1),
       IdleColumn())
    else if s.dataColumns > 0 then
      (s.(transmitting := true, dataColumns := s.dataColumns - 1, txSequence := s.txSequence + 1),
       Column(s.timestamp, SBlock, s.txSequence + 1))
    else if s.frameBytes > 0 then
      (s.(dataColumns := BlocksRoundUp(s.frameBytes, ColumnBytes)), IdleColumn())
    else
      (s, IdleColumn())
  }

  /** The state and the columns after k transmit calls. */
  function TxRun(s: TxState, k: nat): (r: (TxState, seq<Column>))
    ensures |r.1| == k
    decreases k
  {
    if k == 0 then (s, [])
    else
      var (s1, c) := TxTransmit(s);
      var (s2, cs) := TxRun(s1, k - 1);
      (s2, [c] + cs)
  }

  /** The columns of a frame of n columns: S, then D, then T, numbered on
      from `seq0`, each carrying the frame's timestamp. */
  function FrameColumns(stamp: Stamp, seq0: int, n: nat): (cs: seq<Column>)
    ensures |cs| == n
  {
    seq(n, i requires 0 <= i < n =>
      Column(stamp, if i == 0 then SBlock else if i == n - 1 then TBlock else DBlock, seq0 + 1 + i))
  }

  /** No frame is being sent and no gap is pending. */
  predicate TxIdle(s: TxState) {
    !s.transmitting && s.ipgRequired == 0 && s.dataColumns == 0
  }

  /** The state after the T column of the n-column frame latched in s: the
      frame is gone, the deficit has moved and the gap is owed. */
  function TxAfterFrame(s: TxState, n: int): TxState {
    var (bytes, d) := CalculateIpgBytes(s.idleDeficit, s.frameBytes);
    s.(ipgRequired := TruncDiv(bytes, ColumnBytes), idleDeficit := d, frameBytes := 0,
       dataColumns := 0, transmitting := false, txSequence := s.txSequence + n)
  }

  /** While transmitting with m columns left, the next m columns are the D
      columns and then the T column. */
  lemma {:induction false} TxDataPhase(s: TxState, m: nat, start: TxState, n: nat)
    requires s.transmitting && s.dataColumns == m >= 1
    requires n >= 2 && 1 <= n - m
    requires s == start.(transmitting := true, dataColumns := m, txSequence := start.txSequence + n - m)
    ensures TxRun(s, m).0 == TxAfterFrame(start, n)
    ensures TxRun(s, m).1 == FrameColumns(start.timestamp, start.txSequence, n)[n - m..]
    decreases m
  {
    var cols := FrameColumns(start.timestamp, start.txSequence, n);
    var (s1, c) := TxTransmit(s);
    if m == 1 {
      assert TxRun(s, 1).1 == [c];
      assert cols[n - 1..] == [cols[n - 1]];
    } else {
      TxDataPhase(s1, m - 1, start, n);
      assert cols[n - m..] == [cols[n - m]] + cols[n - (m - 1)..];
    }
  }

  /** A frame latched by an idle MAC: one idle column while the MAC sizes
      the frame, then S, ceil(b/4) - 2 D columns and T, numbered on by
      one from the last sequence number, after which the MAC is ready again
      and owes a gap of 2 or 3 idle columns. The frame must span two
      columns at least (more than 4 bytes, which every frame with a
      preamble does). */
  lemma FrameTrace(s: TxState)
    requires TxIdle(s) && s.frameBytes > ColumnBytes && 0 <= s.idleDeficit <= 3
    ensures var n := BlocksRoundUp(s.frameBytes, ColumnBytes);
      && n >= 2
      && TxRun(s, n + 1).1 == [IdleColumn()] + FrameColumns(s.timestamp, s.txSequence, n)
      && TxRun(s, n + 1).0 == TxAfterFrame(s, n)
      && TxReady(TxRun(s, n + 1).0) && !TxRun(s, n + 1).0.transmitting
      && TxRun(s, n + 1).0.ipgRequired in {2, 3}
  {
    var n := BlocksRoundUp(s.frameBytes, ColumnBytes);
    BlocksRoundUpIsCeiling(s.frameBytes, ColumnBytes);
    IpgBytesBounds(s.idleDeficit, s.frameBytes);
    var s1 := s.(dataColumns := n);
    assert TxTransmit(s) == (s1, IdleColumn());
    var s2 := s1.(transmitting := true, dataColumns := n - 1, txSequence := s.txSequence + 1);
    var cols := FrameColumns(s.timestamp, s.txSequence, n);
    assert TxTransmit(s1) == (s2, cols[0]);
    TxDataPhase(s2, n - 1, s, n);
    assert cols == [cols[0]] + cols[1..];
  }

  /** After a frame, the gap: as many idle columns as the gap requires,
      after which the MAC is idle. */
  lemma {:induction false} GapTrace(s: TxState)
    requires !s.transmitting && s.ipgRequired > 0 && s.frameBytes == 0
    ensures TxRun(s, s.ipgRequired).1 == seq(s.ipgRequired, _ => IdleColumn())
    ensures TxRun(s, s.ipgRequired).0 == s.(ipgRequired := 0, dataColumns := 0)
    ensures TxIdle(TxRun(s, s.ipgRequired).0)
    decreases s.ipgRequired
  {
    var s1 := s.(dataColumns := 0, ipgRequired := s.ipgRequired - 1);
    assert TxTransmit(s) == (s1, IdleColumn());
    if s1.ipgRequired > 0 {
      GapTrace(s1);
    }
  }

  /** k transmit calls and then j more are k + j transmit calls. */
  lemma {:induction false} TxRunSplit(s: TxState, k: nat, j: nat)
    ensures TxRun(s, k + j).0 == TxRun(TxRun(s, k).0, j).0
    ensures TxRun(s, k + j).1 == TxRun(s, k).1 + TxRun(TxRun(s, k).0, j).1
    decreases k
  {
    if k > 0 {
      var (s1, c) := TxTransmit(s);
      TxRunSplit(s1, k - 1, j);
    }
  }

  /** One whole cycle: a frame latched by an idle MAC goes out as an idle
      column, the frame's columns and a gap of 2 or 3 idle columns, and the
      MAC ends idle and ready, with the sequence number moved on by the
      frame's column count. */
  lemma FrameThenGap(s: TxState)
    requires TxIdle(s) && s.frameBytes > ColumnBytes && 0 <= s.idleDeficit <= 3
    ensures var n := BlocksRoundUp(s.frameBytes, ColumnBytes);
      var g := TxRun(s, n + 1).0.ipgRequired;
      && g in {2, 3}
      && TxRun(s, n + 1 + g).1
         == [IdleColumn()] + FrameColumns(s.timestamp, s.txSequence, n) + seq(g, _ => IdleColumn())
      && TxIdle(TxRun(s, n + 1 + g).0) && TxReady(TxRun(s, n + 1 + g).0)
      && TxRun(s, n + 1 + g).0.txSequence == s.txSequence + n
  {
    var n := BlocksRoundUp(s.frameBytes, ColumnBytes);
    FrameTrace(s);
    var mid := TxRun(s, n + 1).0;
    GapTrace(mid);
    TxRunSplit(s, n + 1, mid.ipgRequired);
  }

  /** The gap with a frame latched: each idle column of the gap also sizes
      the latched frame, so after j of them the data column count is ready
      (or untouched when j is 0). */
  lemma {:induction false} GapColumns(u: TxState, j: nat)
    requires !u.transmitting && j <= u.ipgRequired
    ensures TxRun(u, j).1 == seq(j, _ => IdleColumn())
    ensures TxRun(u, j).0 == u.(ipgRequired := u.ipgRequired - j,
      dataColumns := if j == 0 then u.dataColumns else BlocksRoundUp(u.frameBytes, ColumnBytes))
    decreases j
  {
    if j > 0 {
      var u1 := u.(dataColumns := BlocksRoundUp(u.frameBytes, ColumnBytes), ipgRequired := u.ipgRequired - 1);
      assert TxTransmit(u) == (u1, IdleColumn());
      GapColumns(u1, j - 1);
      assert [IdleColumn()] + seq(j - 1, _ => IdleColumn()) == seq(j, _ => IdleColumn());
    }
  }

  /** A frame latched while a gap is still owed: the rest of the gap goes
      out as idle columns that size the frame, and its S follows the last
      of them with no sizing column in between. */
  lemma LatchedInGap(u: TxState)
    requires !u.transmitting && u.ipgRequired > 0 && u.frameBytes > ColumnBytes
    ensures var n := BlocksRoundUp(u.frameBytes, ColumnBytes);
      && TxRun(u, u.ipgRequired + n).1
         == seq(u.ipgRequired, _ => IdleColumn()) + FrameColumns(u.timestamp, u.txSequence, n)
      && TxRun(u, u.ipgRequired + n).0 == TxAfterFrame(u, n)
  {
    var n := BlocksRoundUp(u.frameBytes, ColumnBytes);
    var g := u.ipgRequired;
    BlocksRoundUpIsCeiling(u.frameBytes, ColumnBytes);
    GapColumns(u, g);
    var v := u.(ipgRequired := 0, dataColumns := n);
    assert TxRun(u, g).0 == v;
    var start := u.(ipgRequired := 0);
    var s2 := start.(transmitting := true, dataColumns := n - 1, txSequence := u.txSequence + 1);
    var cols := FrameColumns(u.timestamp, u.txSequence, n);
    assert TxTransmit(v) == (s2, cols[0]);
    TxDataPhase(s2, n - 1, start, n);
    assert TxRun(v, n).1 == [cols[0]] + TxRun(s2, n - 1).1;
    assert cols == [cols[0]] + cols[1..];
    TxRunSplit(u, g, n);
  }

  /** Back-to-back frames: a second frame handed over after j of the g gap
      columns that follow the first frame is latched at once. Between the
      first frame's T and the second frame's T the MAC sends exactly the g
      idle columns and then the second frame's columns, numbered on from
      the first frame's T, with no sizing column. Its gap and deficit
      afterwards are those IpgRun gives for the two frame sizes. */
  lemma BackToBack(s: TxState, j: nat, f: Frame)
    requires TxIdle(s) && s.frameBytes > ColumnBytes && 0 <= s.idleDeficit <= 3
    requires f.size + PreambleBytes > ColumnBytes
    requires j < TxRun(s, BlocksRoundUp(s.frameBytes, ColumnBytes) + 1).0.ipgRequired
    ensures var n := BlocksRoundUp(s.frameBytes, ColumnBytes);
      var t := TxRun(s, n + 1).0;
      var g := t.ipgRequired;
      var m := BlocksRoundUp(f.size + PreambleBytes, ColumnBytes);
      var u := TxReceive(TxRun(t, j).0, f);
      && u.frameBytes == f.size + PreambleBytes && u.timestamp == f.stamp
      && TxRun(t, j).1 + TxRun(u, g - j + m).1
         == seq(g, _ => IdleColumn()) + FrameColumns(f.stamp, s.txSequence + n, m)
      && TxRun(u, g - j + m).0.idleDeficit == IpgRun(s.idleDeficit, [s.frameBytes, f.size + PreambleBytes]).1
      && TxRun(u, g - j + m).0.ipgRequired in {2, 3}
      && TxReady(TxRun(u, g - j + m).0)
  {
    var n := BlocksRoundUp(s.frameBytes, ColumnBytes);
    FrameTrace(s);
    var t := TxRun(s, n + 1).0;
    var g := t.ipgRequired;
    GapColumns(t, j);
    var tj := TxRun(t, j).0;
    assert TxReady(tj);
    var u := TxReceive(tj, f);
    assert u.ipgRequired == g - j > 0;
    LatchedInGap(u);
    assert seq(j, _ => IdleColumn()) + seq(g - j, _ => IdleColumn()) == seq(g, _ => IdleColumn());
    IpgBytesBounds(u.idleDeficit, u.frameBytes);
    var sizes := [s.frameBytes, f.size + PreambleBytes];
    var d1 := CalculateIpgBytes(s.idleDeficit, s.frameBytes).1;
    assert u.idleDeficit == d1;
    assert sizes[1..] == [f.size + PreambleBytes];
    assert IpgRun(d1, [f.size + PreambleBytes]).1 == CalculateIpgBytes(d1, f.size + PreambleBytes).1;
    assert IpgRun(s.idleDeficit, sizes).1 == IpgRun(d1, sizes[1..]).1;
  }

  /** Sequence numbers across a frame and its gap: the frame's columns are
      numbered consecutively and the next frame continues from the T. */
  lemma FrameColumnsNumbered(stamp: Stamp, seq0: int, n: nat)
    ensures forall i :: 0 < i < n ==>
      FrameColumns(stamp, seq0, n)[i].seqNo == FrameColumns(stamp, seq0, n)[i - 1].seqNo + 1
    ensures n > 0 ==> FrameColumns(stamp, seq0, n)[n - 1].seqNo == seq0 + n
  {
  }

  /** The state of a MAC whose constructor set every field to zero. */
  function InitialTxState(): (s: TxState)
    ensures TxIdle(s) && TxReady(s)
  {
    TxState(FreshStamp(0), false, 0, 0, 0, 0, 0)
  }

  /** The state the constructor leaves as written: frame_bytes is never
      assigned, so it holds whatever the storage held (`junk`). */
  function AsWrittenInitialTxState(junk: int): TxState {
    TxState(FreshStamp(0), false, 0, junk, 0, 0, 0)
  }

  /** As written, storage that happens to hold a positive frame_bytes makes
      the new MAC refuse the first frame it is given and send a phantom
      frame of that many bytes, with timestamp 0. */
  lemma AsWrittenRefusesFirstFrame(frame: Frame)
    ensures TxReceive(AsWrittenInitialTxState(100), frame) == AsWrittenInitialTxState(100)
    ensures TxRun(AsWrittenInitialTxState(100), 2).1[1] == Column(FreshStamp(0), SBlock, 1)
  {
    var s := AsWrittenInitialTxState(100);
    var s1 := s.(dataColumns := 25);
    assert TxTransmit(s) == (s1, IdleColumn());
    assert TxTransmit(s1).1 == Column(FreshStamp(0), SBlock, 1);
  }

  /** With frame_bytes zeroed, a new MAC takes the first frame it is given. */
  lemma InitialTxStateTakesFrame(frame: Frame)
    ensures TxReceive(InitialTxState(), frame).frameBytes == frame.size + PreambleBytes
    ensures TxReceive(InitialTxState(), frame).timestamp == frame.stamp
  {
  }

  /** fsm_mac_tx_t and fsm_ngepon_mac_tx_t. */
  class MacTx {
    var timestamp: Stamp
    var transmitting: bool
    var txSequence: int
    var frameBytes: int
    var dataColumns: int
    var idleDeficit: int
    var ipgRequired: int

    function State(): TxState
      reads this
    {
      TxState(timestamp, transmitting, txSequence, frameBytes, dataColumns, idleDeficit, ipgRequired)
    }

    /** The deficit stays in [0, 3] and the gap count is never negative. */
    ghost predicate Valid()
      reads this
    {
      0 <= idleDeficit <= 3 && ipgRequired >= 0
    }

    /** The constructor, with frame_bytes zeroed like every other field. */
    constructor ()
      ensures Valid() && State() == InitialTxState()
    {
      timestamp := FreshStamp(0);
      transmitting := false;
      txSequence := 0;
      frameBytes := 0;
      dataColumns := 0;
      idleDeficit := 0;
      ipgRequired := 0;
    }

    predicate MacReady()
      reads this
      ensures MacReady() <==> TxReady(State())
    {
      frameBytes <= 0
    }

    /** CalculateIPGBytes, which also moves the deficit. */
    method CalculateIpg(packetSize: int) returns (bytes: int)
      requires Valid()
      modifies this
      ensures Valid()
      ensures (bytes, idleDeficit) == CalculateIpgBytes(old(idleDeficit), packetSize)
      ensures State() == old(State()).(idleDeficit := idleDeficit)
      ensures 9 <= bytes <= 15 && (packetSize + bytes) % 4 == 0
    {
      IpgBytesBounds(idleDeficit, packetSize);
      var temp := MinIpgBytes + idleDeficit;
      idleDeficit := (packetSize + idleDeficit) % 4;
      bytes := temp - idleDeficit;
    }

    method ReceiveUnit(frame: Frame)
      requires Valid()
      modifies this
      ensures Valid() && State() == TxReceive(old(State()), frame)
    {
      if !MacReady() {
        return;
      }
      frameBytes := frame.size + PreambleBytes;
      timestamp := frame.stamp;
    }

    method TransmitUnit() returns (r: Column)
      requires Valid()
      modifies this
      ensures Valid()
      ensures (State(), r) == TxTransmit(old(State()))
    {
      if transmitting {
        if dataColumns == 1 {
          var bytes := CalculateIpg(frameBytes);
          ipgRequired := TruncDiv(bytes, ColumnBytes);
          frameBytes := 0;
          dataColumns := 0;
          transmitting := false;
          txSequence := txSequence + 1;
          return Column(timestamp, TBlock, txSequence);
        }
        dataColumns := dataColumns - 1;
        txSequence := txSequence + 1;
        return Column(timestamp, DBlock, txSequence);
      }
      if ipgRequired > 0 {
        dataColumns := BlocksRoundUp(frameBytes, ColumnBytes);
        ipgRequired := ipgRequired - 1;
        return IdleColumn();
      }
      if dataColumns > 0 {
        transmitting := true;
        dataColumns := dataColumns - 1;
        txSequence := txSequence + 1;
        return Column(timestamp, SBlock, txSequence);
      }
      if frameBytes > 0 {
        dataColumns := BlocksRoundUp(frameBytes, ColumnBytes);
      }
      return IdleColumn();
    }
  }

  // ---------------------------------------------------------------------
  // MAC RX (10G-EPON)
  // ---------------------------------------------------------------------

  datatype RxState = RxState(receiving: bool, rxSequence: int, frame: Frame, ready: bool)

  /** fsm_mac_rx_t::ReceiveUnit. */
  function RxReceive(s: RxState, col: Column): (r: RxState)
    ensures col.kind in {EBlock, PBlock} ==> r == s
    ensures col.kind == CBlock ==> r == if s.receiving then s.(receiving := false, ready := true) else s
    ensures col.kind !in {EBlock, PBlock, CBlock} ==>
      r.receiving && r.rxSequence == col.seqNo && r.frame == AddColumn(s.frame, col) && r.ready == s.ready
  {
    if ColumnIsType(col, {EBlock, PBlock}) then s
    else if ColumnIsType(col, {CBlock}) then
      if s.receiving then s.(receiving := false, ready := true) else s
    else
      // ++rx_sequence, resynchronised to the column on a mismatch
      var expected := s.rxSequence + 1;
      var sq := if expected != col.seqNo then col.seqNo else expected;
      s.(rxSequence := sq, receiving := true, frame := AddColumn(s.frame, col))
  }

  /** The state after a column sequence, fed from first to last. */
  function RxFeed(s: RxState, cols: seq<Column>): RxState
    decreases |cols|
  {
    if cols == [] then s else RxReceive(RxFeed(s, cols[..|cols| - 1]), cols[|cols| - 1])
  }

  /** The frame a TX stage sends is rebuilt by RX: after its first k
      columns RX is receiving, in step with the sequence numbers, and holds
      k columns' worth of bytes with the frame's timestamp. */
  lemma {:induction false} RxRebuildsPrefix(s: RxState, stamp: Stamp, seq0: int, n: nat, k: nat)
    requires 1 <= k <= n
    ensures RxFeed(s, FrameColumns(stamp, seq0, n)[..k])
      == s.(receiving := true, rxSequence := seq0 + k, frame := Frame(stamp, ColumnBytes * k))
    decreases k
  {
    var cols := FrameColumns(stamp, seq0, n);
    assert cols[..k][..k - 1] == cols[..k - 1];
    if k > 1 {
      RxRebuildsPrefix(s, stamp, seq0, n, k - 1);
    }
  }

  /** TX to RX: a whole frame followed by an idle column leaves RX with a
      complete frame of 4 bytes per column, the frame's timestamp, the
      ready flag set and the expected sequence number in step with TX,
      whatever RX expected before. */
  lemma RxRebuildsFrame(s: RxState, stamp: Stamp, seq0: int, n: nat)
    requires n >= 1
    ensures var r := RxFeed(s, FrameColumns(stamp, seq0, n) + [IdleColumn()]);
      && r.frame == Frame(stamp, ColumnBytes * n)
      && r.ready && !r.receiving && r.rxSequence == seq0 + n
  {
    var cols := FrameColumns(stamp, seq0, n);
    RxRebuildsPrefix(s, stamp, seq0, n, n);
    assert cols[..n] == cols;
    assert (cols + [IdleColumn()])[..n] == cols;
  }

  /** A frame of b bytes (preamble included) rebuilt from its columns has
      b rounded up to whole columns: between b and b + 3 bytes. */
  lemma RebuiltFrameSize(b: int)
    requires b > 0
    ensures var n := BlocksRoundUp(b, ColumnBytes);
      b <= ColumnBytes * n <= b + 3
  {
    BlocksRoundUpIsCeiling(b, ColumnBytes);
  }

  /** fsm_mac_rx_t. */
  class MacRx {
    var receiving: bool
    var rxSequence: int
    var outputBlock: Frame
    var outputReady: bool

    function State(): RxState
      reads this
    {
      RxState(receiving, rxSequence, outputBlock, outputReady)
    }

    constructor ()
      ensures State() == RxState(false, 0, EmptyFrame(), false)
    {
      receiving := false;
      rxSequence := 0;
      outputBlock := EmptyFrame();
      outputReady := false;
    }

    method ReceiveUnit(col: Column)
      modifies this
      ensures State() == RxReceive(old(State()), col)
    {
      if ColumnIsType(col, {EBlock, PBlock}) {
        return;
      }
      if ColumnIsType(col, {CBlock}) {
        if receiving {
          receiving := false;
          outputReady := true;
        }
        return;
      }
      rxSequence := rxSequence + 1;
      if rxSequence != col.seqNo {
        rxSequence := col.seqNo;
      }
      receiving := true;
      outputBlock := AddColumn(outputBlock, col);
    }

    /** The default TransmitUnit: the rebuilt frame; the stage is then not
        ready. */
    method TransmitUnit() returns (r: Frame)
      modifies this
      ensures r == old(outputBlock) && State() == old(State()).(ready := false)
    {
      outputReady := false;
      r := outputBlock;
    }
  }

  // ---------------------------------------------------------------------
  // MAC RX (NG-EPON)
  // ---------------------------------------------------------------------

  datatype NgRxState = NgRxState(
    receiving: bool, rxSequence: int, blockCountIn: int, frame: Frame, ready: bool)

  /** fsm_ngepon_mac_rx_t::ReceiveUnit: every column with a sequence number
      advances the expected number, whatever its type. */
  function NgRxReceive(s: NgRxState, col: Column): (r: NgRxState)
    ensures r.blockCountIn == s.blockCountIn + 1
    ensures col.kind in {EBlock, XBlock, YBlock, PBlock} ==>
      r == s.(blockCountIn := r.blockCountIn,
              rxSequence := if col.seqNo != -1 then s.rxSequence + 1 else s.rxSequence)
    ensures col.kind == CBlock ==>
      r == s.(blockCountIn := r.blockCountIn,
              rxSequence := if col.seqNo != -1 then s.rxSequence + 1 else s.rxSequence,
              receiving := false, ready := s.ready || s.receiving)
    ensures col.kind !in {EBlock, XBlock, YBlock, PBlock, CBlock} ==>
      r.receiving && r.rxSequence == col.seqNo && r.frame == AddColumn(s.frame, col) && r.ready == s.ready
  {
    var s1 := s.(blockCountIn := s.blockCountIn + 1,
                 rxSequence := if col.seqNo != -1 then s.rxSequence + 1 else s.rxSequence);
    if ColumnIsType(col, {EBlock}) || ColumnIsType(col, {XBlock}) || ColumnIsType(col, {YBlock})
       || ColumnIsType(col, {PBlock}) then s1
    else if ColumnIsType(col, {CBlock}) then
      if s1.receiving then s1.(receiving := false, ready := true) else s1
    else
      var sq := if s1.rxSequence != col.seqNo then col.seqNo else s1.rxSequence;
      s1.(rxSequence := sq, receiving := true, frame := AddColumn(s1.frame, col))
  }

  function NgRxFeed(s: NgRxState, cols: seq<Column>): NgRxState
    decreases |cols|
  {
    if cols == [] then s else NgRxReceive(NgRxFeed(s, cols[..|cols| - 1]), cols[|cols| - 1])
  }

  lemma {:induction false} NgRxRebuildsPrefix(s: NgRxState, stamp: Stamp, seq0: int, n: nat, k: nat)
    requires 1 <= k <= n
    ensures NgRxFeed(s, FrameColumns(stamp, seq0, n)[..k])
      == s.(receiving := true, rxSequence := seq0 + k, frame := Frame(stamp, ColumnBytes * k),
            blockCountIn := s.blockCountIn + k)
    decreases k
  {
    var cols := FrameColumns(stamp, seq0, n);
    assert cols[..k][..k - 1] == cols[..k - 1];
    if k > 1 {
      NgRxRebuildsPrefix(s, stamp, seq0, n, k - 1);
    }
  }

  /** TX to NG-EPON RX: the same rebuilt frame, and one count per column. */
  lemma NgRxRebuildsFrame(s: NgRxState, stamp: Stamp, seq0: int, n: nat)
    requires n >= 1
    ensures var r := NgRxFeed(s, FrameColumns(stamp, seq0, n) + [IdleColumn()]);
      && r.frame == Frame(stamp, ColumnBytes * n)
      && r.ready && !r.receiving && r.rxSequence == seq0 + n
      && r.blockCountIn == s.blockCountIn + n + 1
  {
    var cols := FrameColumns(stamp, seq0, n);
    NgRxRebuildsPrefix(s, stamp, seq0, n, n);
    assert cols[..n] == cols;
    assert (cols + [IdleColumn()])[..n] == cols;
  }

  /** fsm_ngepon_mac_rx_t. */
  class NgMacRx {
    var receiving: bool
    var rxSequence: int
    var blockCountIn: int
    var outputBlock: Frame
    var outputReady: bool

    function State(): NgRxState
      reads this
    {
      NgRxState(receiving, rxSequence, blockCountIn, outputBlock, outputReady)
    }

    constructor ()
      ensures State() == NgRxState(false, 0, 0, EmptyFrame(), false)
    {
      receiving := false;
      rxSequence := 0;
      blockCountIn := 0;
      outputBlock := EmptyFrame();
      outputReady := false;
    }

    method ReceiveUnit(col: Column)
      modifies this
      ensures State() == NgRxReceive(old(State()), col)
    {
      blockCountIn := blockCountIn + 1;
      if col.seqNo != -1 {
        rxSequence := rxSequence + 1;
      }
      if ColumnIsType(col, {EBlock}) || ColumnIsType(col, {XBlock}) || ColumnIsType(col, {YBlock})
         || ColumnIsType(col, {PBlock}) {
        return;
      }
      if ColumnIsType(col, {CBlock}) {
        if receiving {
          receiving := false;
          outputReady := true;
        }
        return;
      }
      if rxSequence != col.seqNo {
        rxSequence := col.seqNo;
      }
      receiving := true;
      outputBlock := AddColumn(outputBlock, col);
    }

    method TransmitUnit() returns (r: Frame)
      modifies this
      ensures r == old(outputBlock) && State() == old(State()).(ready := false)
    {
      outputReady := false;
      r := outputBlock;
    }
  }
}
