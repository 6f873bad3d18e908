/** Idle deletion (fsm_olt_idle_deletion_t and fsm_onu_idle_deletion_t,
    after the 10G-EPON transmit path of IEEE 802.3 Clause 76): for every
    FEC_DSIZE vectors forwarded, FEC_PSIZE idle vectors are earned for
    deletion, making room for the parity the FEC encoder adds. The ONU stage
    also realigns a burst so that its start column lands in lane 0, by
    delaying the column stream by half a vector. */
module IdleDeletion {
  import opened Blocks

  /** The OLT stage's counters and its fsm_base_t output buffer. */
  datatype IdState = IdState(vectorCount: int, idleCount: int, deleteCount: int, out: Vector, ready: bool)

  /** The codeword position stays in [0, FEC_DSIZE) and the counters are
      non-negative. */
  predicate IdInv(s: IdState) {
    0 <= s.vectorCount < FecDSize && s.idleCount >= 0 && s.deleteCount >= 0
  }

  /** The constructor's state; the output buffer is a default vector and
      the stage starts not ready. */
  function InitialId(): (s: IdState)
    ensures IdInv(s) && !s.ready
  {
    IdState(0, 0, 0, IdleVector(), false)
  }

  /** `vector.IsType(C_BLOCK | E_BLOCK)`. */
  predicate Deletable(v: Vector) {
    VectorIsType(v, {CBlock, EBlock})
  }

  /** fsm_olt_idle_deletion_t::ReceiveUnit: an idle or errored vector is
      dropped while deletions are owed; any other vector is forwarded and
      counted, and every FEC_DSIZE-th forwarded vector earns FEC_PSIZE more
      deletions. */
  function OltReceive(s: IdState, v: Vector): (r: IdState)
    requires IdInv(s)
    ensures IdInv(r)
    ensures r.ready <==> !(Deletable(v) && s.deleteCount > 0)
  {
    if Deletable(v) && s.deleteCount > 0 then
      s.(deleteCount := s.deleteCount - 1, ready := false)
    else
      var count := s.vectorCount + 1;
      var idle := if Deletable(v) then s.idleCount + 1 else 0;
      if count == FecDSize
      then s.(idleCount := idle, out := v, ready := true, vectorCount := 0, deleteCount := s.deleteCount + FecPSize)
      else s.(idleCount := idle, out := v, ready := true, vectorCount := count)
  }

  /** A dropped vector changes nothing but the owed deletions and the ready
      flag; a forwarded one becomes the output. */
  lemma OltReceiveCases(s: IdState, v: Vector)
    requires IdInv(s)
    ensures var r := OltReceive(s, v);
      && (!r.ready ==> Deletable(v) && r == s.(deleteCount := s.deleteCount - 1, ready := false))
      && (r.ready ==> r.out == v && r.idleCount == (if Deletable(v) then s.idleCount + 1 else 0)
                      && (r.vectorCount == 0 <==> s.vectorCount == FecDSize - 1))
  {
  }

  /** A stream of vectors through the OLT stage: the final state, the
      vectors forwarded in order, and the number dropped. */
  function OltRun(s: IdState, vs: seq<Vector>): (r: (IdState, seq<Vector>, nat))
    requires IdInv(s)
    ensures IdInv(r.0) && |r.1| + r.2 == |vs|
    decreases |vs|
  {
    if vs == [] then (s, [], 0)
    else
      var next := OltReceive(s, vs[0]);
      var rest := OltRun(next, vs[1..]);
      if next.ready then (rest.0, [vs[0]] + rest.1, rest.2) else (rest.0, rest.1, rest.2 + 1)
  }

  /** The deletion budget: every FEC_DSIZE forwarded vectors (counted from
      the codeword position the run starts at) earn FEC_PSIZE deletions, and
      the deletions made plus those still owed are exactly those earned. */
  lemma {:induction false} DeletionBudget(s: IdState, vs: seq<Vector>)
    requires IdInv(s)
    ensures var r := OltRun(s, vs);
      && r.0.vectorCount == (s.vectorCount + |r.1|) % FecDSize
      && r.0.deleteCount + r.2 == s.deleteCount + FecPSize * ((s.vectorCount + |r.1|) / FecDSize)
    decreases |vs|
  {
    if vs != [] {
      var next := OltReceive(s, vs[0]);
      DeletionBudget(next, vs[1..]);
      var rest := OltRun(next, vs[1..]);
      if next.ready {
        assert next.vectorCount + FecDSize * (if next.vectorCount == 0 then 1 else 0) == s.vectorCount + 1;
        DivModStep(s.vectorCount, |rest.1|);
      }
    }
  }

  /** Moving one step of the position into the count. */
  lemma DivModStep(c: int, n: nat)
    requires 0 <= c < FecDSize
    ensures var c1 := if c + 1 == FecDSize then 0 else c + 1;
      && (c1 + n) % FecDSize == (c + 1 + n) % FecDSize
      && (if c + 1 == FecDSize then 1 else 0) + (c1 + n) / FecDSize == (c + 1 + n) / FecDSize
  {
    if c + 1 == FecDSize {
      assert c + 1 + n == n + FecDSize;
    }
  }

  /** The vectors that are neither idle nor errored, in order. */
  function Kept(vs: seq<Vector>): seq<Vector>
    decreases |vs|
  {
    if vs == [] then [] else (if Deletable(vs[0]) then [] else [vs[0]]) + Kept(vs[1..])
  }

  /** Only idle or errored vectors are ever dropped: the non-idle vectors
      come out all and in order. */
  lemma {:induction false} OnlyIdlesDeleted(s: IdState, vs: seq<Vector>)
    requires IdInv(s)
    ensures Kept(OltRun(s, vs).1) == Kept(vs)
    decreases |vs|
  {
    if vs != [] {
      var next := OltReceive(s, vs[0]);
      OnlyIdlesDeleted(next, vs[1..]);
      var rest := OltRun(next, vs[1..]);
      if next.ready {
        var fwd := [vs[0]] + rest.1;
        assert fwd[0] == vs[0] && fwd[1..] == rest.1;
      }
    }
  }

  /** fsm_olt_idle_deletion_t. */
  class OltIdleDeletion {
    var vectorCount: int
    var idleCount: int
    var deleteCount: int
    var outputBlock: Vector
    var outputReady: bool

    function State(): IdState
      reads this
    {
      IdState(vectorCount, idleCount, deleteCount, outputBlock, outputReady)
    }

    ghost predicate Valid()
      reads this
    {
      IdInv(State())
    }

    constructor ()
      ensures Valid() && State() == InitialId()
    {
      vectorCount := 0;
      idleCount := 0;
      deleteCount := 0;
      outputBlock := IdleVector();
      outputReady := false;
    }

    method ReceiveUnit(v: Vector)
      requires Valid()
      modifies this
      ensures Valid() && State() == OltReceive(old(State()), v)
    {
      var idleOrError := VectorIsType(v, {CBlock, EBlock});
      if idleOrError && deleteCount > 0 {
        deleteCount := deleteCount - 1;
        outputReady := false;
        return;
      }
      if idleOrError {
        idleCount := idleCount + 1;
      } else {
        idleCount := 0;
      }
      outputBlock := v;
      outputReady := true;
      vectorCount := vectorCount + 1;
      if vectorCount == FecDSize {
        vectorCount := 0;
        deleteCount := deleteCount + FecPSize;
      }
    }

    /** The default TransmitUnit. */
    method TransmitUnit() returns (r: Vector)
      modifies this
      ensures r == outputBlock && !outputReady
      ensures vectorCount == old(vectorCount) && idleCount == old(idleCount)
      ensures deleteCount == old(deleteCount) && outputBlock == old(outputBlock)
    {
      outputReady := false;
      r := outputBlock;
    }
  }

  // ---------------------------------------------------------------------
  // ONU: half-shift alignment
  // ---------------------------------------------------------------------

  /** The ONU stage: the OLT stage's state, the half-shift flag and the
      column held back for the next vector. */
  datatype OnuState = OnuState(id: IdState, halfShift: bool, txNext: Column)

  function InitialOnu(txNext: Column): (s: OnuState)
    ensures IdInv(s.id) && !s.halfShift
  {
    OnuState(InitialId(), false, txNext)
  }

  /** One step of the half shift: the held column and lane 0 go out, lane 1
      is held back. */
  function Shift(txNext: Column, v: Vector): (r: (Vector, Column))
    ensures r.0.c0 == txNext && r.0.c1 == v.c0 && r.1 == v.c1
  {
    (Vector(txNext, v.c0), v.c1)
  }

  /** AlignVector: after more than DELAY_BOUND idle vectors the stage is
      between bursts; it stops shifting and resets its counters, and a lane-1
      start column starts a new shift with a default column held. While
      shifting, every vector is half-shifted. */
  function Align(s: OnuState, v: Vector): (r: (OnuState, Vector))
    requires IdInv(s.id)
    ensures IdInv(r.0.id)
    ensures r.0.id.out == s.id.out && r.0.id.ready == s.id.ready
  {
    var s1 := if s.id.idleCount > DelayBound
      then
        var reset := s.(halfShift := false, id := s.id.(vectorCount := 2, deleteCount := 0));
        if ColumnIsType(v.c1, {SBlock})
        then reset.(id := reset.id.(vectorCount := 1, idleCount := 0), txNext := IdleColumn(), halfShift := true)
        else reset
      else s;
    if s1.halfShift then
      var step := Shift(s1.txNext, v);
      (s1.(txNext := step.1), step.0)
    else
      (s1, v)
  }

  /** fsm_onu_idle_deletion_t::ReceiveUnit: align, then the OLT stage's
      ReceiveUnit. */
  function OnuReceive(s: OnuState, v: Vector): (r: OnuState)
    requires IdInv(s.id)
    ensures IdInv(r.id)
  {
    var a := Align(s, v);
    a.0.(id := OltReceive(a.0.id, a.1))
  }

  /** Between bursts, a vector with no start column in lane 1 passes
      unshifted, and the shift and the FEC counters are reset. */
  lemma BetweenBursts(s: OnuState, v: Vector)
    requires IdInv(s.id) && s.id.idleCount > DelayBound && !ColumnIsType(v.c1, {SBlock})
    ensures var a := Align(s, v);
      && a.1 == v && !a.0.halfShift
      && a.0.id.vectorCount == 2 && a.0.id.deleteCount == 0
  {
  }

  /** A burst whose start column arrives in lane 1 is realigned: the vector
      goes out as (default column, lane 0) and the start column is held, so
      that it leads lane 0 of the next output vector. */
  lemma StartShiftAligns(s: OnuState, v: Vector, w: Vector)
    requires IdInv(s.id) && s.id.idleCount > DelayBound && ColumnIsType(v.c1, {SBlock})
    ensures var a := Align(s, v);
      && a.1 == Vector(IdleColumn(), v.c0)
      && a.0.halfShift && a.0.txNext == v.c1
      && a.0.id.vectorCount == 1 && a.0.id.idleCount == 0
    ensures var next := OnuReceive(s, v);
      next.id.idleCount <= DelayBound ==> Align(next, w).1.c0 == v.c1
  {
    var a := Align(s, v);
    var next := OnuReceive(s, v);
    assert next.halfShift && next.txNext == v.c1;
  }

  /** Inside a burst, a shifting stage half-shifts the vector. */
  lemma ShiftingInBurst(s: OnuState, v: Vector)
    requires IdInv(s.id) && s.halfShift && s.id.idleCount <= DelayBound
    ensures var a := Align(s, v);
      a.1 == Shift(s.txNext, v).0 && a.0 == s.(txNext := v.c1)
  {
  }

  /** The columns of a vector stream, lane 0 first. */
  function Columns(vs: seq<Vector>): (cs: seq<Column>)
    ensures |cs| == 2 * |vs|
    decreases |vs|
  {
    if vs == [] then [] else [vs[0].c0, vs[0].c1] + Columns(vs[1..])
  }

  /** A run of half shifts: the output vectors and the column held at the
      end. */
  function ShiftRun(txNext: Column, vs: seq<Vector>): (r: (seq<Vector>, Column))
    ensures |r.0| == |vs|
    decreases |vs|
  {
    if vs == [] then ([], txNext)
    else
      var step := Shift(txNext, vs[0]);
      var rest := ShiftRun(step.1, vs[1..]);
      ([step.0] + rest.0, rest.1)
  }

  /** The half shift delays the column stream by exactly one column: the
      output columns followed by the column still held are the held column
      followed by the input columns. */
  lemma {:induction false} ShiftDelaysOneColumn(txNext: Column, vs: seq<Vector>)
    ensures var r := ShiftRun(txNext, vs); Columns(r.0) + [r.1] == [txNext] + Columns(vs)
    decreases |vs|
  {
    if vs != [] {
      var step := Shift(txNext, vs[0]);
      ShiftDelaysOneColumn(step.1, vs[1..]);
      var rest := ShiftRun(step.1, vs[1..]);
      assert ShiftRun(txNext, vs).0 == [step.0] + rest.0;
      assert ([step.0] + rest.0)[1..] == rest.0;
      assert Columns([step.0] + rest.0) == [txNext, vs[0].c0] + Columns(rest.0);
      assert Columns(vs) == [vs[0].c0, vs[0].c1] + Columns(vs[1..]);
      calc {
        Columns(ShiftRun(txNext, vs).0) + [ShiftRun(txNext, vs).1];
        [txNext, vs[0].c0] + Columns(rest.0) + [rest.1];
        [txNext, vs[0].c0] + (Columns(rest.0) + [rest.1]);
        [txNext, vs[0].c0] + ([vs[0].c1] + Columns(vs[1..]));
        [txNext] + ([vs[0].c0, vs[0].c1] + Columns(vs[1..]));
      }
    }
  }

  /** fsm_onu_idle_deletion_t: the OLT stage it extends, plus the shift. */
  class OnuIdleDeletion {
    const base: OltIdleDeletion
    var halfShift: bool
    var txNext: Column

    function State(): OnuState
      reads this, base
    {
      OnuState(base.State(), halfShift, txNext)
    }

    ghost predicate Valid()
      reads this, base
    {
      base.Valid()
    }

    /** The held column is default-constructed. */
    constructor ()
      ensures Valid() && fresh(base) && State() == InitialOnu(IdleColumn())
    {
      base := new OltIdleDeletion();
      halfShift := false;
      txNext := IdleColumn();
    }

    method AlignVector(v: Vector) returns (r: Vector)
      requires Valid()
      modifies this, base
      ensures Valid() && (State(), r) == Align(old(State()), v)
    {
      r := v;
      if base.idleCount > DelayBound {
        halfShift := false;
        base.vectorCount := 2;
        base.deleteCount := 0;
        if ColumnIsType(r.c1, {SBlock}) {
          base.vectorCount := 1;
          txNext := IdleColumn();
          halfShift := true;
          base.idleCount := 0;
        }
      }
      if halfShift {
        var temp := r.c1;
        r := r.(c1 := r.c0);
        r := r.(c0 := txNext);
        txNext := temp;
      }
    }

    method ReceiveUnit(v: Vector)
      requires Valid()
      modifies this, base
      ensures Valid() && State() == OnuReceive(old(State()), v)
    {
      var aligned := AlignVector(v);
      base.ReceiveUnit(aligned);
    }
  }
}
