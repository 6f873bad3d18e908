/** The ONU FEC decoder (fsm_fec_decoder_t): two FEC_DSIZE-block FIFOs used
    as ping-pong buffers. Protected blocks collect in the input buffer; the
    receive that follows FEC_PSIZE parity blocks swaps the buffers, so the
    codeword just received is transmitted while the next one collects. */
module FecDecoder {
  import opened Blocks
  import opened Queues

  /** The decoder's state: the parity counter, the contents of the buffers
      fifo_in and fifo_out point at, and output_ready. */
  datatype DecState = DecState(parityCount: int, fifoIn: seq<Block66>, fifoOut: seq<Block66>, ready: bool)

  /** parity_count stays in [0, FEC_PSIZE] and each buffer holds at most
      FEC_DSIZE blocks. */
  predicate DecInv(s: DecState) {
    0 <= s.parityCount <= FecPSize && |s.fifoIn| <= FecDSize && |s.fifoOut| <= FecDSize
  }

  /** The constructor's state. */
  function InitialDec(): (s: DecState)
    ensures DecInv(s) && !s.ready && s.fifoIn == [] && s.fifoOut == [] && s.parityCount == 0
  {
    DecState(0, [], [], false)
  }

  /** `if( fifo_in->IsFull() ) fifo_in->Get(); fifo_in->Add( block );` */
  function Admit(q: seq<Block66>, b: Block66): (r: seq<Block66>)
    requires |q| <= FecDSize
  {
    if |q| >= FecDSize then q[1..] + [b] else q + [b]
  }

  /** A full buffer evicts its oldest block: the buffer always holds the
      newest min(|q| + 1, FEC_DSIZE) blocks received. */
  lemma AdmitKeepsNewest(q: seq<Block66>, b: Block66)
    requires |q| <= FecDSize
    ensures var n := if |q| + 1 <= FecDSize then |q| + 1 else FecDSize;
      Admit(q, b) == (q + [b])[|q| + 1 - n..]
  {
    if |q| >= FecDSize {
      assert (q + [b])[1..] == q[1..] + [b];
    } else {
      assert (q + [b])[0..] == q + [b];
    }
  }

  /** The start of ReceiveUnit: after FEC_PSIZE parity blocks the buffers
      swap, output_ready is set and the parity counter restarts. */
  function Swap(s: DecState): (r: DecState)
    requires DecInv(s)
    ensures DecInv(r) && r.parityCount < FecPSize
  {
    if s.parityCount == FecPSize then DecState(0, s.fifoOut, s.fifoIn, true) else s
  }

  /** The rest of ReceiveUnit: SH_NONE blocks (N, L, Z) are ignored, a
      parity block is counted and not buffered, any other block is
      admitted to the input buffer. */
  function Process(s: DecState, b: Block66): (r: DecState)
    requires DecInv(s) && s.parityCount < FecPSize
    ensures DecInv(r)
  {
    match b.header
    case ShNone => s
    case ShPrty => s.(parityCount := s.parityCount + 1)
    case _ => s.(fifoIn := Admit(s.fifoIn, b))
  }

  function DecReceive(s: DecState, b: Block66): (r: DecState)
    requires DecInv(s)
    ensures DecInv(r)
  {
    Process(Swap(s), b)
  }

  /** TransmitUnit: output_ready tells whether a block remains after this
      one; the oldest block of the output buffer leaves it. */
  function DecTransmit(s: DecState): (r: DecState)
    requires DecInv(s)
    ensures DecInv(r)
  {
    s.(ready := |s.fifoOut| > 1, fifoOut := if s.fifoOut == [] then [] else s.fifoOut[1..])
  }

  /** After a transmit, output_ready holds exactly when the output buffer
      still has a block, and the buffer lost its oldest block. */
  lemma TransmitReady(s: DecState)
    requires DecInv(s)
    ensures DecTransmit(s).ready <==> DecTransmit(s).fifoOut != []
    ensures s.fifoOut != [] ==> [s.fifoOut[0]] + DecTransmit(s).fifoOut == s.fifoOut
    ensures DecTransmit(s).fifoIn == s.fifoIn && DecTransmit(s).parityCount == s.parityCount
  {
  }

  function DecRun(s: DecState, bs: seq<Block66>): (r: DecState)
    requires DecInv(s)
    ensures DecInv(r)
    decreases |bs|
  {
    if bs == [] then s else DecRun(DecReceive(s, bs[0]), bs[1..])
  }

  /** The blocks the decoder buffers: neither parity nor SH_NONE. */
  predicate Buffered(b: Block66) {
    b.header == ShData || b.header == ShCtrl
  }

  function Parities(n: nat): (ps: seq<Block66>)
    ensures |ps| == n && forall i :: 0 <= i < n ==> ps[i] == Uniform66(PBlock)
  {
    seq(n, _ => Uniform66(PBlock))
  }

  /** The protected blocks of a codeword collect in the input buffer in
      order while the parity counter is still 0. */
  lemma {:induction false} CollectData(s: DecState, ds: seq<Block66>)
    requires DecInv(s) && s.parityCount == 0 && |s.fifoIn| + |ds| <= FecDSize
    requires forall i :: 0 <= i < |ds| ==> Buffered(ds[i])
    ensures DecRun(s, ds) == s.(fifoIn := s.fifoIn + ds)
    decreases |ds|
  {
    if ds != [] {
      var s1 := DecReceive(s, ds[0]);
      assert s1 == s.(fifoIn := s.fifoIn + [ds[0]]);
      CollectData(s1, ds[1..]);
      assert s.fifoIn + [ds[0]] + ds[1..] == s.fifoIn + ds;
    } else {
      assert s.fifoIn + ds == s.fifoIn;
    }
  }

  /** Parity blocks only advance the counter, up to FEC_PSIZE. */
  lemma {:induction false} CountParity(s: DecState, n: nat)
    requires DecInv(s) && s.parityCount + n <= FecPSize
    ensures DecRun(s, Parities(n)) == s.(parityCount := s.parityCount + n)
    decreases n
  {
    if n > 0 {
      var s1 := DecReceive(s, Uniform66(PBlock));
      assert s1 == s.(parityCount := s.parityCount + 1);
      assert Parities(n)[1..] == Parities(n - 1);
      CountParity(s1, n - 1);
    }
  }

  /** A whole codeword: FEC_DSIZE protected blocks into an empty input
      buffer, then FEC_PSIZE parity blocks. The next receive hands the
      codeword to the output buffer, sets output_ready, and starts the
      next codeword in the buffer that was output. */
  lemma Codeword(s: DecState, ds: seq<Block66>, b: Block66)
    requires DecInv(s) && s.parityCount == 0 && s.fifoIn == []
    requires |ds| == FecDSize && forall i :: 0 <= i < |ds| ==> Buffered(ds[i])
    ensures var r := DecRun(s, ds + Parities(FecPSize));
      && r == s.(fifoIn := ds, parityCount := FecPSize)
      && DecReceive(r, b) == Process(DecState(0, s.fifoOut, ds, true), b)
  {
    CollectData(s, ds);
    var s1 := s.(fifoIn := ds);
    assert DecRun(s, ds) == s1;
    DecRunAppend(s, ds, Parities(FecPSize));
    CountParity(s1, FecPSize);
    var r := s1.(parityCount := FecPSize);
    assert Swap(r) == DecState(0, s.fifoOut, ds, true);
  }

  lemma {:induction false} DecRunAppend(s: DecState, xs: seq<Block66>, ys: seq<Block66>)
    requires DecInv(s)
    ensures DecRun(s, xs + ys) == DecRun(DecRun(s, xs), ys)
    decreases |xs|
  {
    if xs != [] {
      assert (xs + ys)[0] == xs[0];
      assert (xs + ys)[1..] == xs[1..] + ys;
      DecRunAppend(DecReceive(s, xs[0]), xs[1..], ys);
    } else {
      assert xs + ys == ys;
    }
  }

  /** fsm_fec_decoder_t. FIFO[0] and FIFO[1] are the two queues; fifo_in
      and fifo_out point at one each. */
  class FecDecoderStage {
    var parityCount: int
    const fifo0: Queue<Block66>
    const fifo1: Queue<Block66>
    var fifoIn: Queue<Block66>
    var fifoOut: Queue<Block66>
    var outputReady: bool

    ghost predicate Valid()
      reads this, fifo0, fifo1
    {
      && fifo0 != fifo1 && fifo0.qArray != fifo1.qArray
      && ((fifoIn == fifo0 && fifoOut == fifo1) || (fifoIn == fifo1 && fifoOut == fifo0))
      && fifo0.Valid() && fifo0.size == FecDSize && fifo0.qLimit == FecDSize
      && fifo1.Valid() && fifo1.size == FecDSize && fifo1.qLimit == FecDSize
      && 0 <= parityCount <= FecPSize
    }

    ghost function State(): (s: DecState)
      requires Valid()
      reads this, fifo0, fifo1, fifo0.qArray, fifo1.qArray
      ensures DecInv(s)
    {
      DecState(parityCount, fifoIn.Contents(), fifoOut.Contents(), outputReady)
    }

    constructor ()
      ensures Valid() && fresh(fifo0) && fresh(fifo1) && fresh(fifo0.qArray) && fresh(fifo1.qArray)
      ensures State() == InitialDec() && fifoIn == fifo0 && fifoOut == fifo1
    {
      parityCount := 0;
      outputReady := false;
      var q0 := new Queue<Block66>(FecDSize, FecDSize, Uniform66(CBlock));
      var q1 := new Queue<Block66>(FecDSize, FecDSize, Uniform66(CBlock));
      fifo0, fifo1 := q0, q1;
      fifoIn, fifoOut := q0, q1;
    }

    method ReceiveUnit(b: Block66)
      requires Valid()
      modifies this, fifo0, fifo1, fifo0.qArray, fifo1.qArray
      ensures Valid() && State() == DecReceive(old(State()), b)
    {
      SwapBuffers();
      if b.header == ShNone {
        return;
      }
      if b.header == ShPrty {
        parityCount := parityCount + 1;
      } else {
        AdmitBlock(b);
      }
    }

    /** The swap at the start of ReceiveUnit. */
    method SwapBuffers()
      requires Valid()
      modifies this
      ensures Valid() && State() == Swap(old(State()))
    {
      if parityCount == FecPSize {
        fifoIn, fifoOut := fifoOut, fifoIn;
        outputReady := true;
        parityCount := 0;
      }
    }

    /** A block admitted to the input buffer. */
    method AdmitBlock(b: Block66)
      requires Valid()
      modifies fifoIn, fifoIn.qArray
      ensures Valid() && State() == old(State()).(fifoIn := Admit(old(State()).fifoIn, b))
    {
      if fifoIn.IsFull() {
        var evicted := fifoIn.Get();
      }
      fifoIn.Add(b);
    }

    /** The block is the oldest of the output buffer when there is one; an
        empty queue's Get returns whatever its head slot holds. */
    method TransmitUnit() returns (r: Block66)
      requires Valid()
      modifies this, fifoOut
      ensures Valid() && State() == DecTransmit(old(State()))
      ensures old(State()).fifoOut != [] ==> r == old(State()).fifoOut[0]
    {
      outputReady := fifoOut.GetSize() > 1;
      r := fifoOut.Get();
    }
  }
}
