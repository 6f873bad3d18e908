/** Idle insertion (fsm_idle_insertion_t): a FIFO of vectors that starts
    FIFO_II_SIZE - 1 idle vectors deep; a start or idle vector first tops it
    up with idle vectors, and an empty FIFO gives an idle vector. */
module IdleInsertion {
  import opened Blocks
  import opened Queues

  /** FIFO_II_SIZE: room for the FEC parity of the longest frame, plus one. */
  const FifoIiSize := BlocksRoundUp(MaxFrameBytes, FecPayloadBytes) * FecPSize + 1

  /** With MAX_FRAME_BYTES = 2020 and 216-byte payloads: ten codewords' worth
      of four parity vectors, plus one. */
  lemma FifoIiSizeValue()
    ensures FifoIiSize == 41
  {
    assert BlocksRoundUp(MaxFrameBytes, FecPayloadBytes) == 10;
  }

  /** IDLE_VECTOR. */
  function IdleFill(n: nat): (vs: seq<Vector>)
    ensures |vs| == n && forall i :: 0 <= i < n ==> vs[i] == IdleVector()
  {
    seq(n, _ => IdleVector())
  }

  /** `vector.IsType(S_BLOCK | C_BLOCK)`: the vectors that may be padded
      in front of. */
  predicate Paddable(v: Vector) {
    VectorIsType(v, {SBlock, CBlock})
  }

  /** ReceiveUnit on the FIFO's contents: a full FIFO drops the vector; a
      start or idle vector is preceded by idle vectors up to
      FIFO_II_SIZE - 1 entries; the vector is then appended. */
  function IiReceive(q: seq<Vector>, v: Vector): (r: seq<Vector>)
    requires |q| <= FifoIiSize
    ensures |r| <= FifoIiSize
  {
    if |q| >= FifoIiSize then q
    else if Paddable(v) then q + IdleFill(FifoIiSize - 1 - |q|) + [v]
    else q + [v]
  }

  /** TransmitUnit on the FIFO's contents: the oldest vector, or an idle
      vector when empty. */
  function IiTransmit(q: seq<Vector>): (r: (seq<Vector>, Vector))
    ensures q == [] ==> r == (q, IdleVector())
    ensures q != [] ==> [r.1] + r.0 == q
  {
    if q == [] then (q, IdleVector()) else (q[1..], q[0])
  }

  /** A receive keeps what was queued, inserts only idle vectors and only
      in front of a start or idle vector, and leaves the FIFO full after a
      padded vector. */
  lemma ReceiveShape(q: seq<Vector>, v: Vector)
    requires |q| <= FifoIiSize
    ensures |q| == FifoIiSize ==> IiReceive(q, v) == q
    ensures |q| < FifoIiSize ==> exists k: nat :: IiReceive(q, v) == q + IdleFill(k) + [v] && (k > 0 ==> Paddable(v))
    ensures |q| < FifoIiSize && Paddable(v) ==> |IiReceive(q, v)| == FifoIiSize
  {
    if |q| < FifoIiSize {
      if Paddable(v) {
        assert IiReceive(q, v) == q + IdleFill(FifoIiSize - 1 - |q|) + [v];
      } else {
        assert IiReceive(q, v) == q + IdleFill(0) + [v];
      }
    }
  }

  /** The stage as the 10G-EPON driver runs it: each vector received is
      followed by one transmit. From FIFO_II_SIZE - 1 vectors queued, no
      vector is ever dropped or padded: the stage is a delay line of
      FIFO_II_SIZE - 1 vectors. */
  function LockStep(q: seq<Vector>, vs: seq<Vector>): (r: (seq<Vector>, seq<Vector>))
    requires |q| <= FifoIiSize
    decreases |vs|
  {
    if vs == [] then (q, [])
    else
      var t := IiTransmit(IiReceive(q, vs[0]));
      var rest := LockStep(t.0, vs[1..]);
      (rest.0, [t.1] + rest.1)
  }

  lemma {:induction false} LockStepDelays(q: seq<Vector>, vs: seq<Vector>)
    requires |q| == FifoIiSize - 1
    ensures LockStep(q, vs) == ((q + vs)[|vs|..], (q + vs)[..|vs|])
    decreases |vs|
  {
    if vs != [] {
      FifoIiSizeValue();
      var v := vs[0];
      ReceiveInRoom(q, v);
      var t := IiTransmit(q + [v]);
      assert (q + [v])[1..] == q[1..] + [v];
      assert t.0 == q[1..] + [v] && t.1 == q[0];
      LockStepDelays(t.0, vs[1..]);
      assert LockStep(q, vs) == (LockStep(t.0, vs[1..]).0, [q[0]] + LockStep(t.0, vs[1..]).1);
      assert t.0 + vs[1..] == (q + vs)[1..];
      assert (q + vs)[1..][|vs| - 1..] == (q + vs)[|vs|..];
      assert [q[0]] + (q + vs)[1..][..|vs| - 1] == (q + vs)[..|vs|];
    } else {
      assert (q + vs)[|vs|..] == q;
    }
  }

  /** With one free entry below the padding level, a receive appends. */
  lemma ReceiveInRoom(q: seq<Vector>, v: Vector)
    requires |q| == FifoIiSize - 1
    ensures IiReceive(q, v) == q + [v]
  {
    assert IdleFill(FifoIiSize - 1 - |q|) == [];
  }

  /** fsm_idle_insertion_t. The output buffer of fsm_base_t is never used. */
  class IdleInsertion {
    const fifo: Queue<Vector>
    var outputReady: bool

    ghost predicate Valid()
      reads this, fifo
    {
      fifo.Valid() && fifo.size == FifoIiSize && fifo.qLimit == FifoIiSize
    }

    ghost function Contents(): seq<Vector>
      requires Valid()
      reads this, fifo, fifo.qArray
    {
      fifo.Contents()
    }

    /** Prefilled with FIFO_II_SIZE - 1 idle vectors, and ready. */
    constructor ()
      ensures Valid() && fresh(fifo) && fresh(fifo.qArray)
      ensures Contents() == IdleFill(FifoIiSize - 1) && outputReady
    {
      FifoIiSizeValue();
      var q := new Queue<Vector>(FifoIiSize, FifoIiSize, IdleVector());
      while q.GetSize() < FifoIiSize - 1
        invariant q.Valid() && q.size == FifoIiSize && q.qLimit == FifoIiSize && fresh(q) && fresh(q.qArray)
        invariant q.GetSize() <= FifoIiSize - 1
        invariant q.Contents() == IdleFill(q.GetSize())
        decreases FifoIiSize - 1 - q.GetSize()
      {
        q.Add(IdleVector());
        assert IdleFill(q.GetSize()) == IdleFill(q.GetSize() - 1) + [IdleVector()];
      }
      fifo := q;
      outputReady := true;
    }

    method ReceiveUnit(v: Vector)
      requires Valid()
      modifies fifo, fifo.qArray
      ensures Valid() && Contents() == IiReceive(old(Contents()), v)
    {
      if fifo.IsFull() {
        return;
      }
      ghost var before := fifo.Contents();
      if VectorIsType(v, {SBlock, CBlock}) {
        while fifo.GetSize() < FifoIiSize - 1
          invariant Valid() && |before| <= fifo.GetSize() <= FifoIiSize - 1
          invariant fifo.Contents() == before + IdleFill(fifo.GetSize() - |before|)
          decreases FifoIiSize - 1 - fifo.GetSize()
        {
          fifo.Add(IdleVector());
          assert IdleFill(fifo.GetSize() - |before|) == IdleFill(fifo.GetSize() - 1 - |before|) + [IdleVector()];
        }
      }
      fifo.Add(v);
    }

    method TransmitUnit() returns (r: Vector)
      requires Valid()
      modifies fifo
      ensures Valid() && (Contents(), r) == IiTransmit(old(Contents()))
    {
      if fifo.IsEmpty() {
        r := IdleVector();
      } else {
        r := fifo.Get();
      }
    }
  }
}
