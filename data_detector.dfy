/** The data detectors (fsm_olt_data_detector_t and fsm_onu_data_detector_t,
    after the 10G-EPON PCS of IEEE 802.3 Clause 76): a FIFO of 66-bit blocks
    and a transmit state machine that frames the stream into FEC codewords
    of FEC_DSIZE protected blocks followed by FEC_PSIZE parity blocks. The
    ONU detector also turns the laser on and off around each burst: a burst
    starts with the sync pattern and the burst delimiter, and ends with the
    terminator. */
module DataDetector {
  import opened Blocks
  import opened Queues

  const FifoDdOltSize := BlocksRoundUp(FecPayloadBytes + MaxFrameBytes, FecPayloadBytes) * FecPSize + 1
  const FifoDdOnuSize := DelayBound + 45

  lemma FifoSizes()
    ensures FifoDdOltSize == 45 && FifoDdOnuSize == 110
  {
    assert BlocksRoundUp(FecPayloadBytes + MaxFrameBytes, FecPayloadBytes) == 11;
  }

  /** SP, PARITY_BLOCK, BURST_DELIMITER, ZERO_BLOCK and the default block. */
  function SyncPattern(): Block66 { Uniform66(NBlock) }
  function ParityBlock(): Block66 { Uniform66(PBlock) }
  function Delimiter(): Block66 { Uniform66(LBlock) }
  function ZeroBlock(): Block66 { Uniform66(ZBlock) }
  function DefaultBlock(): Block66 { Uniform66(CBlock) }

  function Repeat(b: Block66, n: nat): (bs: seq<Block66>)
    ensures |bs| == n && forall i :: 0 <= i < n ==> bs[i] == b
  {
    seq(n, _ => b)
  }

  /** The states of the transmit machines (`active_state`). The OLT uses
      FEC_IS_ON and TRANSMIT_PARITY only. */
  datatype Phase = LaserIsOff | BurstPreamble | BurstDelimiter | FecIsOn | TransmitParity | LaserOff | BurstTerminator

  // ---------------------------------------------------------------------
  // FEC framing, shared by both detectors
  // ---------------------------------------------------------------------

  /** The state pointer and the two codeword counters. */
  datatype Framing = Framing(phase: Phase, protectedCount: int, parityCount: int)

  predicate InFec(f: Framing) {
    f.phase == FecIsOn || f.phase == TransmitParity
  }

  /** Inside a codeword the counters stay below FEC_DSIZE and FEC_PSIZE. */
  predicate FramingInv(f: Framing) {
    && (f.phase == FecIsOn ==> 0 <= f.protectedCount < FecDSize)
    && (f.phase == TransmitParity ==> 0 <= f.parityCount < FecPSize)
  }

  /** The oldest queued block, or a default block if the FIFO is empty. */
  function Take(q: seq<Block66>): (r: (seq<Block66>, Block66))
    ensures q == [] ==> r == (q, DefaultBlock())
    ensures q != [] ==> [r.1] + r.0 == q
  {
    if q == [] then (q, DefaultBlock()) else (q[1..], q[0])
  }

  /** n blocks taken in turn. */
  function Drain(q: seq<Block66>, n: nat): (r: (seq<Block66>, seq<Block66>))
    ensures |r.1| == n
    ensures n <= |q| ==> r == (q[n..], q[..n])
    decreases n
  {
    if n == 0 then (q, [])
    else
      var t := Take(q);
      var rest := Drain(t.0, n - 1);
      assert n <= |q| ==> q[n..] == t.0[n - 1..] && q[..n] == [t.1] + t.0[..n - 1];
      (rest.0, [t.1] + rest.1)
  }

  /** state_FEC_IS_ON and state_TRANSMIT_PARITY: a protected block from the
      FIFO, the FEC_DSIZE-th one switching to parity; or a parity block, the
      FEC_PSIZE-th one switching back. */
  function FecTransmit(f: Framing, q: seq<Block66>): (r: (Framing, seq<Block66>, Block66))
    requires InFec(f) && FramingInv(f)
    ensures InFec(r.0) && FramingInv(r.0)
  {
    if f.phase == FecIsOn then
      var p := f.protectedCount + 1;
      var t := Take(q);
      (Framing(if p == FecDSize then TransmitParity else FecIsOn, p, 0), t.0, t.1)
    else
      var k := f.parityCount + 1;
      (Framing(if k == FecPSize then FecIsOn else TransmitParity, 0, k), q, ParityBlock())
  }

  function FecRun(f: Framing, q: seq<Block66>, n: nat): (r: (Framing, seq<Block66>, seq<Block66>))
    requires InFec(f) && FramingInv(f)
    ensures InFec(r.0) && FramingInv(r.0) && |r.2| == n
    decreases n
  {
    if n == 0 then (f, q, [])
    else
      var step := FecTransmit(f, q);
      var rest := FecRun(step.0, step.1, n - 1);
      (rest.0, rest.1, [step.2] + rest.2)
  }

  /** The start of a codeword: FEC_IS_ON with no protected block sent. The
      parity counter is left at FEC_PSIZE by the previous codeword (and is 0
      before the first). */
  function CodewordStart(parity: int): Framing {
    Framing(FecIsOn, 0, parity)
  }

  /** One step of a run. */
  lemma FecRunStep(f: Framing, q: seq<Block66>, n: nat)
    requires InFec(f) && FramingInv(f)
    ensures var step := FecTransmit(f, q);
      var rest := FecRun(step.0, step.1, n);
      FecRun(f, q, n + 1) == (rest.0, rest.1, [step.2] + rest.2)
  {
  }

  lemma {:induction false} ParityRun(f: Framing, q: seq<Block66>, j: nat)
    requires f.phase == TransmitParity && f.parityCount == j < FecPSize
    ensures FecRun(f, q, FecPSize - j) == (CodewordStart(FecPSize), q, Repeat(ParityBlock(), FecPSize - j))
    decreases FecPSize - j
  {
    var next := Framing(if j + 1 == FecPSize then FecIsOn else TransmitParity, 0, j + 1);
    assert FecTransmit(f, q) == (next, q, ParityBlock());
    FecRunStep(f, q, FecPSize - j - 1);
    if j + 1 < FecPSize {
      ParityRun(next, q, j + 1);
      assert Repeat(ParityBlock(), FecPSize - j) == [ParityBlock()] + Repeat(ParityBlock(), FecPSize - (j + 1));
    } else {
      assert FecRun(next, q, 0) == (next, q, []);
      assert [ParityBlock()] + [] == Repeat(ParityBlock(), FecPSize - j);
    }
  }

  lemma {:induction false} DataRun(f: Framing, q: seq<Block66>, j: nat)
    requires f.phase == FecIsOn && f.protectedCount == j < FecDSize
    ensures var d := Drain(q, FecDSize - j);
      FecRun(f, q, FecDSize - j + FecPSize) == (CodewordStart(FecPSize), d.0, d.1 + Repeat(ParityBlock(), FecPSize))
    decreases FecDSize - j
  {
    var t := Take(q);
    var next := Framing(if j + 1 == FecDSize then TransmitParity else FecIsOn, j + 1, 0);
    assert FecTransmit(f, q) == (next, t.0, t.1);
    FecRunStep(f, q, FecDSize - j - 1 + FecPSize);
    var d' := Drain(t.0, FecDSize - j - 1);
    assert Drain(q, FecDSize - j) == (d'.0, [t.1] + d'.1);
    if j + 1 < FecDSize {
      DataRun(next, t.0, j + 1);
      assert [t.1] + (d'.1 + Repeat(ParityBlock(), FecPSize)) == ([t.1] + d'.1) + Repeat(ParityBlock(), FecPSize);
    } else {
      ParityRun(next, t.0, 0);
      assert d' == (t.0, []);
      assert [t.1] + d'.1 == [t.1];
    }
  }

  /** The FEC cycle: from the start of a codeword, FEC_DSIZE + FEC_PSIZE
      transmits send the next FEC_DSIZE blocks of the FIFO (default blocks
      once it is empty) and then FEC_PSIZE parity blocks, and the next
      codeword starts. */
  lemma FecCycle(parity: int, q: seq<Block66>)
    ensures var d := Drain(q, FecDSize);
      FecRun(CodewordStart(parity), q, FecDSize + FecPSize)
      == (CodewordStart(FecPSize), d.0, d.1 + Repeat(ParityBlock(), FecPSize))
  {
    DataRun(CodewordStart(parity), q, 0);
  }

  // ---------------------------------------------------------------------
  // OLT data detector
  // ---------------------------------------------------------------------

  /** The constructor's state. */
  function InitialOltFec(): (f: Framing)
    ensures InFec(f) && FramingInv(f)
  {
    CodewordStart(0)
  }

  /** ReceiveUnit: a full FIFO drops the block. */
  function OltDdReceive(q: seq<Block66>, b: Block66): (r: seq<Block66>)
    requires |q| <= FifoDdOltSize
    ensures |q| == FifoDdOltSize ==> r == q
    ensures |q| < FifoDdOltSize ==> r == q + [b]
  {
    if |q| >= FifoDdOltSize then q else q + [b]
  }

  /** fsm_olt_data_detector_t. */
  class OltDataDetector {
    var activeState: Phase
    var protectedBlockCount: int
    var parityBlockCount: int
    const fifo: Queue<Block66>
    var outputReady: bool

    function Fec(): Framing
      reads this
    {
      Framing(activeState, protectedBlockCount, parityBlockCount)
    }

    ghost predicate Valid()
      reads this, fifo
    {
      && fifo.Valid() && fifo.size == FifoDdOltSize && fifo.qLimit == FifoDdOltSize
      && InFec(Fec()) && FramingInv(Fec())
    }

    ghost function Contents(): seq<Block66>
      requires Valid()
      reads this, fifo, fifo.qArray
    {
      fifo.Contents()
    }

    constructor ()
      ensures Valid() && fresh(fifo) && fresh(fifo.qArray)
      ensures Fec() == InitialOltFec() && Contents() == [] && outputReady
    {
      FifoSizes();
      activeState := FecIsOn;
      protectedBlockCount := 0;
      parityBlockCount := 0;
      outputReady := true;
      fifo := new Queue<Block66>(FifoDdOltSize, FifoDdOltSize, DefaultBlock());
    }

    method StateFecIsOn() returns (r: Block66)
      requires Valid() && activeState == FecIsOn
      modifies this, fifo
      ensures Valid() && outputReady == old(outputReady)
      ensures (Fec(), Contents(), r) == FecTransmit(old(Fec()), old(Contents()))
    {
      protectedBlockCount := protectedBlockCount + 1;
      parityBlockCount := 0;
      if protectedBlockCount == FecDSize {
        activeState := TransmitParity;
      }
      if fifo.IsEmpty() {
        return DefaultBlock();
      }
      r := fifo.Get();
    }

    method StateTransmitParity() returns (r: Block66)
      requires Valid() && activeState == TransmitParity
      modifies this
      ensures Valid() && outputReady == old(outputReady)
      ensures (Fec(), Contents(), r) == FecTransmit(old(Fec()), old(Contents()))
    {
      parityBlockCount := parityBlockCount + 1;
      protectedBlockCount := 0;
      if parityBlockCount == FecPSize {
        activeState := FecIsOn;
      }
      r := ParityBlock();
    }

    method ReceiveUnit(b: Block66)
      requires Valid()
      modifies fifo, fifo.qArray
      ensures Valid() && Contents() == OltDdReceive(old(Contents()), b)
    {
      if fifo.IsFull() {
        return;
      }
      fifo.Add(b);
    }

    /** The active state's function. */
    method TransmitUnit() returns (r: Block66)
      requires Valid()
      modifies this, fifo
      ensures Valid() && outputReady == old(outputReady)
      ensures (Fec(), Contents(), r) == FecTransmit(old(Fec()), old(Contents()))
    {
      if activeState == FecIsOn {
        r := StateFecIsOn();
      } else {
        r := StateTransmitParity();
      }
    }
  }

  // ---------------------------------------------------------------------
  // ONU data detector
  // ---------------------------------------------------------------------

  /** The ONU machine: the framing part, the idle, sync and terminator
      counters and the laser flag. */
  datatype OnuDd = OnuDd(fec: Framing, idleCount: int, syncCount: int, terminatorCount: int, transmitting: bool)

  /** The counter of the active state stays inside its range, and the idle
      count never drops below -1. */
  predicate OnuDdInv(s: OnuDd) {
    && FramingInv(s.fec)
    && s.idleCount >= -1
    && (s.fec.phase == BurstPreamble ==> 0 <= s.syncCount < SyncLength)
    && (s.fec.phase == BurstTerminator ==> 0 <= s.terminatorCount < TerminatorLength)
  }

  function InitialOnuDd(): (s: OnuDd)
    ensures OnuDdInv(s) && s.fec.phase == LaserIsOff && !s.transmitting
  {
    OnuDd(Framing(LaserIsOff, 0, 0), -1, 0, 0, false)
  }

  /** state_LASER_IS_OFF: the sync pattern; a pending burst starts the
      preamble. */
  function OffStep(s: OnuDd): (r: (OnuDd, Block66))
    requires OnuDdInv(s) && s.fec.phase == LaserIsOff
    ensures OnuDdInv(r.0) && r.1 == SyncPattern()
    ensures r.0.fec.phase == (if s.transmitting then BurstPreamble else LaserIsOff)
  {
    (s.(syncCount := 0, fec := s.fec.(phase := if s.transmitting then BurstPreamble else LaserIsOff)), SyncPattern())
  }

  /** state_TRANSMIT_BURST_PREAMBLE: the sync pattern, SYNC_LENGTH times. */
  function PreambleStep(s: OnuDd): (r: (OnuDd, Block66))
    requires OnuDdInv(s) && s.fec.phase == BurstPreamble
    ensures OnuDdInv(r.0) && r.1 == SyncPattern() && r.0.syncCount == s.syncCount + 1
  {
    var k := s.syncCount + 1;
    (s.(syncCount := k, fec := s.fec.(phase := if k == SyncLength then BurstDelimiter else BurstPreamble)), SyncPattern())
  }

  /** state_TRANSMIT_BURST_DELIMITER: the delimiter, then the first
      codeword. */
  function DelimiterStep(s: OnuDd): (r: (OnuDd, Block66))
    requires OnuDdInv(s) && s.fec.phase == BurstDelimiter
    ensures OnuDdInv(r.0) && r.1 == Delimiter() && r.0.fec == CodewordStart(s.fec.parityCount)
  {
    (s.(fec := s.fec.(protectedCount := 0, phase := FecIsOn)), Delimiter())
  }

  /** state_TRANSMIT_PARITY: as in the shared framing, except that more
      than DELAY_BOUND idle blocks end the burst after the last parity
      block. */
  function ParityStep(s: OnuDd): (r: (OnuDd, Block66))
    requires OnuDdInv(s) && s.fec.phase == TransmitParity
    ensures OnuDdInv(r.0) && r.1 == ParityBlock()
  {
    var k := s.fec.parityCount + 1;
    var next := if k < FecPSize then TransmitParity else if s.idleCount > DelayBound then LaserOff else FecIsOn;
    (s.(fec := Framing(next, 0, k)), ParityBlock())
  }

  /** state_LASER_OFF up to its call of the terminator state. */
  function LaserOffEntry(s: OnuDd): (r: OnuDd)
    requires OnuDdInv(s) && s.fec.phase == LaserOff
    ensures OnuDdInv(r) && r.fec.phase == BurstTerminator && r.terminatorCount == 0 && !r.transmitting
  {
    s.(transmitting := false, terminatorCount := 0, fec := s.fec.(phase := BurstTerminator))
  }

  /** state_TRANSMIT_BURST_TERMINATOR: a zero block, TERMINATOR_LENGTH
      times. */
  function TerminatorStep(s: OnuDd): (r: (OnuDd, Block66))
    requires OnuDdInv(s) && s.fec.phase == BurstTerminator
    ensures OnuDdInv(r.0) && r.1 == ZeroBlock() && r.0.terminatorCount == s.terminatorCount + 1
    ensures r.0.fec.phase == (if r.0.terminatorCount == TerminatorLength then LaserIsOff else BurstTerminator)
  {
    var k := s.terminatorCount + 1;
    (s.(terminatorCount := k, fec := s.fec.(phase := if k == TerminatorLength then LaserIsOff else BurstTerminator)),
     ZeroBlock())
  }

  /** state_FEC_IS_ON, as in the shared framing. */
  function DataStep(s: OnuDd, q: seq<Block66>): (r: (OnuDd, seq<Block66>, Block66))
    requires OnuDdInv(s) && s.fec.phase == FecIsOn
    ensures OnuDdInv(r.0)
  {
    var t := FecTransmit(s.fec, q);
    (s.(fec := t.0), t.1, t.2)
  }

  /** TransmitUnit: the active state's function. */
  function OnuDdTransmit(s: OnuDd, q: seq<Block66>): (r: (OnuDd, seq<Block66>, Block66))
    requires OnuDdInv(s)
    ensures OnuDdInv(r.0)
    ensures r.0.idleCount == s.idleCount
  {
    match s.fec.phase
    case LaserIsOff => var t := OffStep(s); (t.0, q, t.1)
    case BurstPreamble => var t := PreambleStep(s); (t.0, q, t.1)
    case BurstDelimiter => var t := DelimiterStep(s); (t.0, q, t.1)
    case FecIsOn => DataStep(s, q)
    case TransmitParity => var t := ParityStep(s); (t.0, q, t.1)
    case LaserOff => var t := TerminatorStep(LaserOffEntry(s)); (t.0, q, t.1)
    case BurstTerminator => var t := TerminatorStep(s); (t.0, q, t.1)
  }

  function OnuDdRun(s: OnuDd, q: seq<Block66>, n: nat): (r: (OnuDd, seq<Block66>, seq<Block66>))
    requires OnuDdInv(s)
    ensures OnuDdInv(r.0) && |r.2| == n
    decreases n
  {
    if n == 0 then (s, q, [])
    else
      var step := OnuDdTransmit(s, q);
      var rest := OnuDdRun(step.0, step.1, n - 1);
      (rest.0, rest.1, [step.2] + rest.2)
  }

  /** ReceiveUnit: a control block counts as idle and, while the laser is
      off, trims the FIFO to its newest two blocks; any other block turns
      the laser on. The block is then added unless the FIFO is full. */
  function OnuDdReceive(s: OnuDd, q: seq<Block66>, b: Block66): (r: (OnuDd, seq<Block66>))
    requires OnuDdInv(s) && |q| <= FifoDdOnuSize
    ensures OnuDdInv(r.0) && |r.1| <= FifoDdOnuSize
    ensures r.0.fec == s.fec && r.0.syncCount == s.syncCount && r.0.terminatorCount == s.terminatorCount
  {
    var trimmed := if b.header == ShCtrl && !s.transmitting && |q| > 2 then q[|q| - 2..] else q;
    var s1 := if b.header == ShCtrl then s.(idleCount := s.idleCount + 1) else s.(idleCount := -1, transmitting := true);
    (s1, if |trimmed| >= FifoDdOnuSize then trimmed else trimmed + [b])
  }

  /** Between bursts the FIFO keeps only the newest two blocks and the
      control block just received; a data block starts a burst and resets
      the idle count. */
  lemma ReceiveBetweenBursts(s: OnuDd, q: seq<Block66>, b: Block66)
    requires OnuDdInv(s) && |q| <= FifoDdOnuSize
    ensures var r := OnuDdReceive(s, q, b);
      && (b.header == ShCtrl && !s.transmitting ==>
            r.1 == (if |q| > 2 then q[|q| - 2..] else q) + [b] && r.0.idleCount == s.idleCount + 1)
      && (b.header != ShCtrl ==> r.0.transmitting && r.0.idleCount == -1)
  {
    FifoSizes();
  }

  /** While the laser is off and no burst is pending, the detector sends the
      sync pattern and stays put. */
  lemma LaserStaysOff(s: OnuDd, q: seq<Block66>)
    requires OnuDdInv(s) && s.fec.phase == LaserIsOff && !s.transmitting
    ensures OnuDdTransmit(s, q) == (s.(syncCount := 0), q, SyncPattern())
  {
  }

  /** One step of a run. */
  lemma OnuDdRunStep(s: OnuDd, q: seq<Block66>, n: nat)
    requires OnuDdInv(s)
    ensures var step := OnuDdTransmit(s, q);
      var rest := OnuDdRun(step.0, step.1, n);
      OnuDdRun(s, q, n + 1) == (rest.0, rest.1, [step.2] + rest.2)
  {
  }

  /** A run of m + n transmits is a run of m followed by a run of n. */
  lemma {:induction false} OnuDdRunAppend(s: OnuDd, q: seq<Block66>, m: nat, n: nat)
    requires OnuDdInv(s)
    ensures var a := OnuDdRun(s, q, m);
      var b := OnuDdRun(a.0, a.1, n);
      OnuDdRun(s, q, m + n) == (b.0, b.1, a.2 + b.2)
    decreases m
  {
    if m > 0 {
      var step := OnuDdTransmit(s, q);
      var m' := m - 1;
      OnuDdRunStep(s, q, m');
      OnuDdRunStep(s, q, m' + n);
      OnuDdRunAppend(step.0, step.1, m', n);
      var a' := OnuDdRun(step.0, step.1, m');
      var b := OnuDdRun(a'.0, a'.1, n);
      assert OnuDdRun(s, q, m) == (a'.0, a'.1, [step.2] + a'.2);
      assert OnuDdRun(s, q, m + n) == (b.0, b.1, [step.2] + (a'.2 + b.2));
      assert [step.2] + (a'.2 + b.2) == ([step.2] + a'.2) + b.2;
    } else {
      assert OnuDdRun(s, q, 0) == (s, q, []);
      assert [] + OnuDdRun(s, q, n).2 == OnuDdRun(s, q, n).2;
    }
  }

  /** The preamble sends the sync pattern until SYNC_LENGTH have been sent
      and then moves to the delimiter. */
  lemma {:induction false} PreambleRun(s: OnuDd, q: seq<Block66>, j: nat)
    requires OnuDdInv(s) && s.fec.phase == BurstPreamble && s.syncCount == j
    ensures OnuDdRun(s, q, SyncLength - j)
         == (s.(syncCount := SyncLength, fec := s.fec.(phase := BurstDelimiter)), q, Repeat(SyncPattern(), SyncLength - j))
    decreases SyncLength - j
  {
    var next := PreambleStep(s).0;
    OnuDdRunStep(s, q, SyncLength - j - 1);
    if j + 1 < SyncLength {
      PreambleRun(next, q, j + 1);
      assert next.(syncCount := SyncLength, fec := next.fec.(phase := BurstDelimiter))
          == s.(syncCount := SyncLength, fec := s.fec.(phase := BurstDelimiter));
      assert [SyncPattern()] + Repeat(SyncPattern(), SyncLength - (j + 1)) == Repeat(SyncPattern(), SyncLength - j);
    } else {
      assert OnuDdRun(next, q, 0) == (next, q, []);
      assert [SyncPattern()] + [] == Repeat(SyncPattern(), SyncLength - j);
    }
  }

  /** Burst start: once a data block has turned the laser on, the detector
      sends the sync pattern SYNC_LENGTH + 1 times (one from LASER_IS_OFF,
      SYNC_LENGTH from the preamble), then the burst delimiter, and starts
      a codeword. */
  lemma BurstStart(s: OnuDd, q: seq<Block66>)
    requires OnuDdInv(s) && s.fec.phase == LaserIsOff && s.transmitting
    ensures OnuDdRun(s, q, SyncLength + 2)
         == (s.(syncCount := SyncLength, fec := CodewordStart(s.fec.parityCount)), q,
             Repeat(SyncPattern(), SyncLength + 1) + [Delimiter()])
  {
    var s1 := OffStep(s).0;
    OnuDdRunStep(s, q, SyncLength + 1);
    PreambleRun(s1, q, 0);
    OnuDdRunAppend(s1, q, SyncLength, 1);
    var s2 := s1.(syncCount := SyncLength, fec := s1.fec.(phase := BurstDelimiter));
    var s3 := DelimiterStep(s2).0;
    assert OnuDdTransmit(s2, q) == (s3, q, Delimiter());
    OnuDdRunStep(s2, q, 0);
    assert OnuDdRun(s3, q, 0) == (s3, q, []);
    assert [Delimiter()] + [] == [Delimiter()];
    assert OnuDdRun(s2, q, 1) == (s3, q, [Delimiter()]);
    assert s3 == s.(syncCount := SyncLength, fec := CodewordStart(s.fec.parityCount));
    assert [SyncPattern()] + (Repeat(SyncPattern(), SyncLength) + [Delimiter()])
        == Repeat(SyncPattern(), SyncLength + 1) + [Delimiter()];
  }

  /** Burst end: after the last parity block of a codeword, more than
      DELAY_BOUND idle blocks turn the laser off; otherwise the next
      codeword starts. */
  lemma ParityExit(s: OnuDd, q: seq<Block66>)
    requires OnuDdInv(s) && s.fec.phase == TransmitParity && s.fec.parityCount == FecPSize - 1
    ensures var r := OnuDdTransmit(s, q);
      && r.2 == ParityBlock() && r.1 == q
      && r.0.fec.phase == (if s.idleCount > DelayBound then LaserOff else FecIsOn)
  {
  }

  /** LASER_OFF clears the laser flag and, with the terminator state, sends
      TERMINATOR_LENGTH zero blocks before the laser is off. */
  lemma BurstEnd(s: OnuDd, q: seq<Block66>)
    requires OnuDdInv(s) && s.fec.phase == LaserOff
    ensures OnuDdRun(s, q, TerminatorLength)
         == (s.(transmitting := false, terminatorCount := TerminatorLength, fec := s.fec.(phase := LaserIsOff)), q,
             Repeat(ZeroBlock(), TerminatorLength))
  {
    var t1 := TerminatorStep(LaserOffEntry(s)).0;
    var t2 := TerminatorStep(t1).0;
    var t3 := TerminatorStep(t2).0;
    OnuDdRunStep(s, q, 2);
    OnuDdRunStep(t1, q, 1);
    OnuDdRunStep(t2, q, 0);
    assert OnuDdRun(t3, q, 0) == (t3, q, []);
    assert t3 == s.(transmitting := false, terminatorCount := TerminatorLength, fec := s.fec.(phase := LaserIsOff));
    assert [ZeroBlock()] + ([ZeroBlock()] + ([ZeroBlock()] + [])) == Repeat(ZeroBlock(), TerminatorLength);
  }

  /** Inside a burst that is not ending, the ONU detector frames exactly as
      the shared FEC framing does. */
  lemma {:induction false} OnuFramesAsFec(s: OnuDd, q: seq<Block66>, n: nat)
    requires OnuDdInv(s) && InFec(s.fec) && s.idleCount <= DelayBound
    ensures var f := FecRun(s.fec, q, n);
      OnuDdRun(s, q, n) == (s.(fec := f.0), f.1, f.2)
    decreases n
  {
    if n > 0 {
      var t := FecTransmit(s.fec, q);
      assert OnuDdTransmit(s, q) == (s.(fec := t.0), t.1, t.2);
      OnuDdRunStep(s, q, n - 1);
      FecRunStep(s.fec, q, n - 1);
      OnuFramesAsFec(s.(fec := t.0), t.1, n - 1);
    } else {
      assert OnuDdRun(s, q, 0) == (s, q, []);
      assert s.(fec := s.fec) == s;
    }
  }

  /** The ONU's FEC cycle inside a burst. */
  lemma OnuFecCycle(s: OnuDd, q: seq<Block66>)
    requires OnuDdInv(s) && s.fec.phase == FecIsOn && s.fec.protectedCount == 0 && s.idleCount <= DelayBound
    ensures var d := Drain(q, FecDSize);
      OnuDdRun(s, q, FecDSize + FecPSize)
      == (s.(fec := CodewordStart(FecPSize)), d.0, d.1 + Repeat(ParityBlock(), FecPSize))
  {
    OnuFramesAsFec(s, q, FecDSize + FecPSize);
    FecCycle(s.fec.parityCount, q);
    assert s.fec == CodewordStart(s.fec.parityCount);
  }

  /** fsm_onu_data_detector_t. */
  class OnuDataDetector {
    var activeState: Phase
    var idleBlockCount: int
    var syncBlockCount: int
    var protectedBlockCount: int
    var parityBlockCount: int
    var terminatorBlockCount: int
    var transmitting: bool
    const fifo: Queue<Block66>
    var outputReady: bool

    function State(): OnuDd
      reads this
    {
      OnuDd(Framing(activeState, protectedBlockCount, parityBlockCount),
            idleBlockCount, syncBlockCount, terminatorBlockCount, transmitting)
    }

    ghost predicate Valid()
      reads this, fifo
    {
      && fifo.Valid() && fifo.size == FifoDdOnuSize && fifo.qLimit == FifoDdOnuSize
      && OnuDdInv(State())
    }

    ghost function Contents(): seq<Block66>
      requires Valid()
      reads this, fifo, fifo.qArray
    {
      fifo.Contents()
    }

    constructor ()
      ensures Valid() && fresh(fifo) && fresh(fifo.qArray)
      ensures State() == InitialOnuDd() && Contents() == [] && outputReady
    {
      FifoSizes();
      activeState := LaserIsOff;
      idleBlockCount := -1;
      syncBlockCount := 0;
      protectedBlockCount := 0;
      parityBlockCount := 0;
      terminatorBlockCount := 0;
      transmitting := false;
      outputReady := true;
      fifo := new Queue<Block66>(FifoDdOnuSize, FifoDdOnuSize, DefaultBlock());
    }

    method StateLaserIsOff() returns (r: Block66)
      requires Valid() && activeState == LaserIsOff
      modifies this
      ensures Valid() && outputReady == old(outputReady)
      ensures (State(), r) == OffStep(old(State()))
    {
      syncBlockCount := 0;
      if transmitting {
        activeState := BurstPreamble;
      }
      r := SyncPattern();
    }

    method StateBurstPreamble() returns (r: Block66)
      requires Valid() && activeState == BurstPreamble
      modifies this
      ensures Valid() && outputReady == old(outputReady)
      ensures (State(), r) == PreambleStep(old(State()))
    {
      syncBlockCount := syncBlockCount + 1;
      if syncBlockCount == SyncLength {
        activeState := BurstDelimiter;
      }
      r := SyncPattern();
    }

    method StateBurstDelimiter() returns (r: Block66)
      requires Valid() && activeState == BurstDelimiter
      modifies this
      ensures Valid() && outputReady == old(outputReady)
      ensures (State(), r) == DelimiterStep(old(State()))
    {
      protectedBlockCount := 0;
      activeState := FecIsOn;
      r := Delimiter();
    }

    method StateFecIsOn() returns (r: Block66)
      requires Valid() && activeState == FecIsOn
      modifies this, fifo
      ensures Valid() && outputReady == old(outputReady)
      ensures (State(), Contents(), r) == DataStep(old(State()), old(Contents()))
    {
      protectedBlockCount := protectedBlockCount + 1;
      parityBlockCount := 0;
      if protectedBlockCount == FecDSize {
        activeState := TransmitParity;
      }
      if fifo.IsEmpty() {
        return DefaultBlock();
      }
      r := fifo.Get();
    }

    method StateTransmitParity() returns (r: Block66)
      requires Valid() && activeState == TransmitParity
      modifies this
      ensures Valid() && outputReady == old(outputReady)
      ensures (State(), r) == ParityStep(old(State()))
    {
      parityBlockCount := parityBlockCount + 1;
      protectedBlockCount := 0;
      if parityBlockCount == FecPSize {
        activeState := if idleBlockCount > DelayBound then LaserOff else FecIsOn;
      }
      r := ParityBlock();
    }

    method StateLaserOff() returns (r: Block66)
      requires Valid() && activeState == LaserOff
      modifies this
      ensures Valid() && outputReady == old(outputReady)
      ensures (State(), r) == TerminatorStep(LaserOffEntry(old(State())))
    {
      transmitting := false;
      terminatorBlockCount := 0;
      activeState := BurstTerminator;
      r := StateBurstTerminator();
    }

    method StateBurstTerminator() returns (r: Block66)
      requires Valid() && activeState == BurstTerminator
      modifies this
      ensures Valid() && outputReady == old(outputReady)
      ensures (State(), r) == TerminatorStep(old(State()))
    {
      terminatorBlockCount := terminatorBlockCount + 1;
      if terminatorBlockCount == TerminatorLength {
        activeState := LaserIsOff;
      }
      r := ZeroBlock();
    }

    /** The active state's function. */
    method TransmitUnit() returns (r: Block66)
      requires Valid()
      modifies this, fifo
      ensures Valid() && outputReady == old(outputReady)
      ensures (State(), Contents(), r) == OnuDdTransmit(old(State()), old(Contents()))
    {
      match activeState
      case LaserIsOff => r := StateLaserIsOff();
      case BurstPreamble => r := StateBurstPreamble();
      case BurstDelimiter => r := StateBurstDelimiter();
      case FecIsOn => r := StateFecIsOn();
      case TransmitParity => r := StateTransmitParity();
      case LaserOff => r := StateLaserOff();
      case BurstTerminator => r := StateBurstTerminator();
    }

    method ReceiveUnit(b: Block66)
      requires Valid()
      modifies this, fifo, fifo.qArray
      ensures Valid() && outputReady == old(outputReady)
      ensures (State(), Contents()) == OnuDdReceive(old(State()), old(Contents()), b)
    {
      ghost var q := fifo.Contents();
      if b.header == ShCtrl {
        idleBlockCount := idleBlockCount + 1;
        while !transmitting && fifo.GetSize() > 2
          modifies fifo
          invariant fifo.Valid() && fifo.size == FifoDdOnuSize && fifo.qLimit == FifoDdOnuSize
          invariant fifo.GetSize() <= |q|
          invariant fifo.Contents() == q[|q| - fifo.GetSize()..]
          invariant !transmitting && |q| > 2 ==> fifo.GetSize() >= 2
          invariant transmitting || |q| <= 2 ==> fifo.GetSize() == |q|
          decreases fifo.GetSize()
        {
          ghost var before := fifo.Contents();
          var dropped := fifo.Get();
          assert before[1..] == q[|q| - fifo.GetSize()..];
        }
      } else {
        idleBlockCount := -1;
        transmitting := true;
      }
      fifo.Add(b);
    }
  }
}
