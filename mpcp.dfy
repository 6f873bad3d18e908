/** The MPCP transmit gate of the 10G-EPON and NG-EPON paths: it holds one
    frame, hands it to the MAC when the channel timer has run out (and, for
    10G-EPON, when the FEC codeword position allows), and then keeps the
    channel busy for as long as the frame takes on the line. The receive
    side is a pass-through latch (Coding.NewMpcpRx). */
module Mpcp {
  import opened Blocks

  // ---------------------------------------------------------------------
  // FEC overhead
  // ---------------------------------------------------------------------

  /** FEC_Overhead(length) at codeword position `byteTime`: the length
      rounded up to whole columns, plus one parity section for each payload
      boundary the frame's end reaches. */
  function FecOverhead(byteTime: int, length: int): int {
    var padded := ColumnBytes * BlocksRoundUp(length, ColumnBytes);
    padded + FecParityBytes * TruncDiv(byteTime + padded, FecPayloadBytes)
  }

  /** Line time of n payload bytes sent from codeword payload position
      `pos`, byte by byte: each byte takes one byte time, and a byte that
      completes the payload of a codeword is followed by its parity. */
  function LineTime(pos: int, n: nat): int
    decreases n
  {
    if n == 0 then 0
    else 1 + (if pos + 1 == FecPayloadBytes then FecParityBytes else 0)
         + LineTime(if pos + 1 == FecPayloadBytes then 0 else pos + 1, n - 1)
  }

  lemma {:induction false} LineTimeFormula(pos: int, n: nat)
    requires 0 <= pos < FecPayloadBytes
    ensures LineTime(pos, n) == n + FecParityBytes * ((pos + n) / FecPayloadBytes)
    decreases n
  {
    if n > 0 {
      if pos + 1 == FecPayloadBytes {
        LineTimeFormula(0, n - 1);
        assert (pos + n) / FecPayloadBytes == 1 + (n - 1) / FecPayloadBytes;
      } else {
        LineTimeFormula(pos + 1, n - 1);
      }
    }
  }

  /** The timer FEC_Overhead sets is the line time of the frame's bytes,
      rounded up to whole columns, from the current codeword position. */
  lemma FecOverheadIsLineTime(byteTime: int, length: int)
    requires 0 <= byteTime < FecPayloadBytes && length >= 0
    ensures var padded := ColumnBytes * BlocksRoundUp(length, ColumnBytes);
      && length <= padded < length + ColumnBytes
      && FecOverhead(byteTime, length) == LineTime(byteTime, padded)
  {
    BlocksRoundUpIsCeiling(length, ColumnBytes);
    LineTimeFormula(byteTime, ColumnBytes * BlocksRoundUp(length, ColumnBytes));
  }

  // ---------------------------------------------------------------------
  // The byte clock
  // ---------------------------------------------------------------------

  datatype MpcpState = MpcpState(
    timer: int, frameAvailable: bool, byteTime: int, grantStart: bool, frame: Frame)

  /** IncrementByteClock: the codeword position advances, wrapping at the
      codeword length, and a running timer counts down. */
  function Tick(s: MpcpState): MpcpState {
    s.(byteTime := if s.byteTime + 1 == FecCodewordBytes then 0 else s.byteTime + 1,
       timer := if s.timer > 0 then s.timer - 1 else s.timer)
  }

  function TickRun(s: MpcpState, k: nat): MpcpState
    decreases k
  {
    if k == 0 then s else TickRun(Tick(s), k - 1)
  }

  /** After k ticks the position has moved on k bytes modulo the codeword
      length and the timer has run down by k, stopping at 0. */
  lemma {:induction false} TickRunClock(s: MpcpState, k: nat)
    requires 0 <= s.byteTime < FecCodewordBytes && s.timer >= 0
    ensures var r := TickRun(s, k);
      && r.byteTime == (s.byteTime + k) % FecCodewordBytes
      && r.timer == (if s.timer >= k then s.timer - k else 0)
      && r.frameAvailable == s.frameAvailable && r.grantStart == s.grantStart && r.frame == s.frame
    decreases k
  {
    if k > 0 {
      TickRunClock(Tick(s), k - 1);
    }
  }

  /** ChannelReady: the timer has run out and no frame is held. */
  predicate ChannelIdle(s: MpcpState) {
    s.timer == 0 && !s.frameAvailable
  }

  /** A handed-over frame keeps the channel busy for exactly the timer's
      ticks: busy before, ready after. */
  lemma ChannelBusyForTimer(s: MpcpState, k: nat)
    requires 0 <= s.byteTime < FecCodewordBytes && s.timer >= 0 && !s.frameAvailable
    ensures ChannelIdle(TickRun(s, k)) <==> k >= s.timer
  {
    TickRunClock(s, k);
  }

  /** fsm_mpcp_tx_t: OutputReady also wants the codeword position on a
      column boundary and inside the payload, unless a grant starts. */
  predicate OutputReady10G(s: MpcpState) {
    && s.timer == 0 && s.frameAvailable
    && s.byteTime % 4 == 0 && (s.byteTime < FecPayloadBytes || s.grantStart)
  }

  /** fsm_ngepon_mpcp_tx_t: the alignment is not required. */
  predicate OutputReadyNg(s: MpcpState) {
    s.timer == 0 && s.frameAvailable
  }

  /** The two gates never open together, the 10G-EPON gate opens only
      where the NG-EPON one does, and once the timer has run out exactly
      one of them is open. */
  lemma GatesExclusive(s: MpcpState)
    ensures !(ChannelIdle(s) && OutputReadyNg(s))
    ensures OutputReady10G(s) ==> OutputReadyNg(s)
    ensures s.timer == 0 ==> (ChannelIdle(s) <==> !OutputReadyNg(s))
  {
  }

  /** The NG-EPON gate can hand a frame over inside the parity section,
      which the 10G-EPON gate refuses. */
  lemma NgGateIgnoresCodewordPosition(f: Frame)
    ensures OutputReadyNg(MpcpState(0, true, 220, false, f))
    ensures !OutputReady10G(MpcpState(0, true, 220, false, f))
  {
  }

  /** TransmitUnit of the 10G-EPON gate: a grant start restarts the
      codeword position at 16; the frame is given out and the timer set to
      the frame's line time. */
  function Transmit10G(s: MpcpState): (r: (MpcpState, Frame))
    ensures r.1 == s.frame && !r.0.frameAvailable && !r.0.grantStart
    ensures r.0.byteTime == if s.grantStart then 16 else s.byteTime
  {
    var bt := if s.grantStart then 16 else s.byteTime;
    var dataTx := s.frame.size - EHeaderBytes - ChecksumBytes;
    (s.(byteTime := bt, grantStart := false, frameAvailable := false,
        timer := FecOverhead(bt, dataTx + TailGuard)), s.frame)
  }

  /** Handing over a ready frame: the MAC starts it inside a codeword's
      payload on a column boundary, and the channel stays busy for its line
      time (its size plus the 38-byte tail guard, minus header and checksum
      counted in that guard, with parity). */
  lemma Transmit10GLineTime(s: MpcpState)
    requires OutputReady10G(s) && 0 <= s.byteTime < FecCodewordBytes
    requires s.frame.size >= EHeaderBytes + ChecksumBytes - TailGuard
    ensures var r := Transmit10G(s).0;
      && 0 <= r.byteTime < FecPayloadBytes && r.byteTime % 4 == 0
      && r.timer == LineTime(r.byteTime,
           ColumnBytes * BlocksRoundUp(s.frame.size - EHeaderBytes - ChecksumBytes + TailGuard, ColumnBytes))
  {
    var r := Transmit10G(s).0;
    FecOverheadIsLineTime(r.byteTime, s.frame.size - EHeaderBytes - ChecksumBytes + TailGuard);
  }

  /** TransmitUnit of the NG-EPON gate: the timer is the frame's size plus
      the tail guard, minus header and checksum, with no rounding and no
      parity. */
  function TransmitNg(s: MpcpState): (r: (MpcpState, Frame))
    ensures r.1 == s.frame && !r.0.frameAvailable && !r.0.grantStart
    ensures r.0.byteTime == if s.grantStart then 16 else s.byteTime
  {
    var bt := if s.grantStart then 16 else s.byteTime;
    (s.(byteTime := bt, grantStart := false, frameAvailable := false,
        timer := s.frame.size - EHeaderBytes - ChecksumBytes + TailGuard), s.frame)
  }

  /** ReceiveUnit of both gates: the frame is latched whatever the channel
      state (a busy channel only draws a warning). */
  function Receive(s: MpcpState, frame: Frame): (r: MpcpState)
    ensures r.frame == frame && r.frameAvailable
    ensures r.(frame := s.frame, frameAvailable := s.frameAvailable) == s
  {
    s.(frame := frame, frameAvailable := true)
  }

  /** One frame through the 10G-EPON gate: latched on a ready channel, given
      out when the gate opens, after which the channel is busy for the
      frame's line time and then ready for the next frame. */
  lemma Cycle10G(s: MpcpState, frame: Frame, k: nat)
    requires ChannelIdle(s) && 0 <= s.byteTime < FecCodewordBytes
    requires frame.size >= EHeaderBytes + ChecksumBytes - TailGuard
    requires OutputReady10G(Receive(s, frame))
    ensures var (after, out) := Transmit10G(Receive(s, frame));
      && out == frame
      && after.timer >= 0
      && (ChannelIdle(TickRun(after, k)) <==> k >= after.timer)
  {
    var after := Transmit10G(Receive(s, frame)).0;
    Transmit10GLineTime(Receive(s, frame));
    LineTimeNonNegative(after.byteTime,
      ColumnBytes * BlocksRoundUp(frame.size - EHeaderBytes - ChecksumBytes + TailGuard, ColumnBytes));
    ChannelBusyForTimer(after, k);
  }

  /** One frame through the NG-EPON gate: latched on a ready channel, the
      gate is open at once (whatever the codeword position), the frame
      comes out unchanged, and the channel is busy for exactly the frame's
      bytes plus the tail guard less header and checksum, with no column
      rounding and no parity, and then ready for the next frame. */
  lemma CycleNg(s: MpcpState, frame: Frame, k: nat)
    requires ChannelIdle(s) && 0 <= s.byteTime < FecCodewordBytes
    requires frame.size >= EHeaderBytes + ChecksumBytes - TailGuard
    ensures OutputReadyNg(Receive(s, frame))
    ensures var (after, out) := TransmitNg(Receive(s, frame));
      && out == frame
      && after.timer == frame.size - EHeaderBytes - ChecksumBytes + TailGuard
      && (ChannelIdle(TickRun(after, k)) <==> k >= frame.size - EHeaderBytes - ChecksumBytes + TailGuard)
  {
    var after := TransmitNg(Receive(s, frame)).0;
    ChannelBusyForTimer(after, k);
  }

  lemma {:induction false} LineTimeNonNegative(pos: int, n: int)
    requires n >= 0
    ensures LineTime(pos, n) >= n
    decreases n
  {
    if n > 0 {
      LineTimeNonNegative(if pos + 1 == FecPayloadBytes then 0 else pos + 1, n - 1);
    }
  }

  // ---------------------------------------------------------------------
  // The stage objects
  // ---------------------------------------------------------------------

  /** fsm_mpcp_tx_t. `grantStart` is set by the driver. */
  class MpcpTx {
    var initiateTimer: int
    var frameAvailable: bool
    var byteTime: int
    var grantStart: bool
    var outputBlock: Frame

    function State(): MpcpState
      reads this
    {
      MpcpState(initiateTimer, frameAvailable, byteTime, grantStart, outputBlock)
    }

    /** The codeword position stays inside a codeword. */
    ghost predicate Valid()
      reads this
    {
      0 <= byteTime < FecCodewordBytes
    }

    constructor ()
      ensures Valid() && ChannelIdle(State())
      ensures State() == MpcpState(0, false, 0, false, EmptyFrame())
    {
      byteTime := 0;
      initiateTimer := 0;
      frameAvailable := false;
      grantStart := false;
      outputBlock := EmptyFrame();
    }

    predicate OutputReady()
      reads this
      ensures OutputReady() <==> OutputReady10G(State())
    {
      var alignmentCorrect := byteTime % 4 == 0 && (byteTime < FecPayloadBytes || grantStart);
      initiateTimer == 0 && frameAvailable && alignmentCorrect
    }

    predicate ChannelReady()
      reads this
      ensures ChannelReady() <==> ChannelIdle(State())
    {
      initiateTimer == 0 && !frameAvailable
    }

    method ReceiveUnit(frame: Frame)
      requires Valid()
      modifies this
      ensures Valid() && State() == Receive(old(State()), frame)
    {
      outputBlock := frame;
      frameAvailable := true;
    }

    method TransmitUnit() returns (r: Frame)
      requires Valid()
      modifies this
      ensures Valid() && (State(), r) == Transmit10G(old(State()))
    {
      if grantStart {
        byteTime := 16;
        grantStart := false;
      }
      frameAvailable := false;
      var dataTx := outputBlock.size - EHeaderBytes - ChecksumBytes;
      initiateTimer := FecOverhead(byteTime, dataTx + TailGuard);
      r := outputBlock;
    }

    method IncrementByteClock()
      requires Valid()
      modifies this
      ensures Valid() && State() == Tick(old(State()))
    {
      byteTime := byteTime + 1;
      if byteTime == FecCodewordBytes {
        byteTime := 0;
      }
      if initiateTimer > 0 {
        initiateTimer := initiateTimer - 1;
      }
    }
  }

  /** fsm_ngepon_mpcp_tx_t. */
  class NgMpcpTx {
    var initiateTimer: int
    var frameAvailable: bool
    var byteTime: int
    var grantStart: bool
    var outputBlock: Frame

    function State(): MpcpState
      reads this
    {
      MpcpState(initiateTimer, frameAvailable, byteTime, grantStart, outputBlock)
    }

    ghost predicate Valid()
      reads this
    {
      0 <= byteTime < FecCodewordBytes
    }

    constructor ()
      ensures Valid() && ChannelIdle(State())
      ensures State() == MpcpState(0, false, 0, false, EmptyFrame())
    {
      byteTime := 0;
      initiateTimer := 0;
      frameAvailable := false;
      grantStart := false;
      outputBlock := EmptyFrame();
    }

    /** The alignment test is still evaluated but no longer gates. */
    predicate OutputReady()
      reads this
      ensures OutputReady() <==> OutputReadyNg(State())
    {
      initiateTimer == 0 && frameAvailable
    }

    /** The same test as MpcpTx.ChannelReady: both gates share ChannelIdle. */
    predicate ChannelReady()
      reads this
      ensures ChannelReady() <==> ChannelIdle(State())
    {
      initiateTimer == 0 && !frameAvailable
    }

    method ReceiveUnit(frame: Frame)
      requires Valid()
      modifies this
      ensures Valid() && State() == Receive(old(State()), frame)
    {
      outputBlock := frame;
      frameAvailable := true;
    }

    method TransmitUnit() returns (r: Frame)
      requires Valid()
      modifies this
      ensures Valid() && (State(), r) == TransmitNg(old(State()))
    {
      if grantStart {
        byteTime := 16;
        grantStart := false;
      }
      frameAvailable := false;
      initiateTimer := outputBlock.size - EHeaderBytes - ChecksumBytes + TailGuard;
      r := outputBlock;
    }

    method IncrementByteClock()
      requires Valid()
      modifies this
      ensures Valid() && State() == Tick(old(State()))
    {
      byteTime := byteTime + 1;
      if byteTime == FecCodewordBytes {
        byteTime := 0;
      }
      if initiateTimer > 0 {
        initiateTimer := initiateTimer - 1;
      }
    }
  }
}
