/** The pass-through stages: the 64B/66B encoder and decoder, the scrambler
    and descrambler (which do not scramble in this simulator), and the MPCP
    receive stage. Each latches a conversion of its input and uses the
    default transmit protocol. */
module Coding {
  import opened Blocks
  import opened Stages

  /** `static_cast<_72b_t>(in_blk)`: the vector without its header. */
  function Decode(b: Block66): Vector {
    b.vector
  }

  /** A block whose header is the one its vector determines: every block
      the encoder and the data detectors build. */
  predicate WellFormed(b: Block66) {
    b.header == SyncHeaderOf(b.vector)
  }

  /** Decoding inverts encoding, and encoding inverts decoding on exactly
      the well-formed blocks. */
  lemma EncodeDecodeRoundTrip(v: Vector, b: Block66)
    ensures Decode(Encode66(v)) == v
    ensures WellFormed(Encode66(v))
    ensures Encode66(Decode(b)) == b <==> WellFormed(b)
  {
  }

  /** Stamping keeps a block well-formed: the header follows the lane types,
      which stamping leaves alone. */
  lemma StampKeepsWellFormed(b: Block66, ndx: int, now: int)
    requires WellFormed(b)
    ensures WellFormed(StampBlock66(b, ndx, now))
  {
  }

  function Identity66(b: Block66): Block66 { b }

  function IdentityFrame(f: Frame): Frame { f }

  method NewEncoder() returns (s: Latch<Vector, Block66>)
    ensures fresh(s) && s.slot == Dly66bEncoder && !s.outputReady
    ensures s.convert == Encode66
    ensures s.measure == StampBlock66
  {
    s := new Latch(Dly66bEncoder, Encode66, StampBlock66, Encode66(IdleVector()));
  }

  method NewDecoder() returns (s: Latch<Block66, Vector>)
    ensures fresh(s) && s.slot == Dly66bDecoder && !s.outputReady
    ensures s.convert == Decode
    ensures s.measure == StampVector
  {
    s := new Latch(Dly66bDecoder, Decode, StampVector, IdleVector());
  }

  method NewScrambler() returns (s: Latch<Block66, Block66>)
    ensures fresh(s) && s.slot == DlyScrambler && !s.outputReady
    ensures s.convert == Identity66 && s.measure == StampBlock66
  {
    s := new Latch(DlyScrambler, Identity66, StampBlock66, Encode66(IdleVector()));
  }

  method NewDescrambler() returns (s: Latch<Block66, Block66>)
    ensures fresh(s) && s.slot == DlyDescrambler && !s.outputReady
    ensures s.convert == Identity66 && s.measure == StampBlock66
  {
    s := new Latch(DlyDescrambler, Identity66, StampBlock66, Encode66(IdleVector()));
  }

  /** fsm_mpcp_rx_t and fsm_ngepon_mpcp_rx_t: the frame is passed on as it
      arrives. */
  method NewMpcpRx(slot: int) returns (s: Latch<Frame, Frame>)
    ensures fresh(s) && s.slot == slot && !s.outputReady
    ensures s.convert == IdentityFrame && s.measure == StampFrame
  {
    s := new Latch(slot, IdentityFrame, StampFrame, EmptyFrame());
  }
}
