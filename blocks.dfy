/** Data units shared by every pipeline stage: the single-lane column, the
    two-lane vector, the 66-bit block with its derived sync header, the
    byte-counting MAC frame, and the per-unit timestamp with its array of
    per-stage delay samples. */
module Blocks {

  // ---------------------------------------------------------------------
  // Protocol constants
  // ---------------------------------------------------------------------

  const MinIpgBytes := 12
  const PreambleBytes := 8
  const ChecksumBytes := 4
  const EHeaderBytes := 14
  const MinPacketBytes := 64
  const MaxPacketBytes := 2000
  const MaxFrameBytes := MaxPacketBytes + PreambleBytes + MinIpgBytes
  const TailGuard := 38
  const ColumnBytes := 4
  const VectorBytes := ColumnBytes * 2

  const FecDSize := 27
  const FecPSize := 4
  const FecPayloadBytes := FecDSize * VectorBytes
  const FecParityBytes := FecPSize * VectorBytes
  const FecCodewordBytes := FecPayloadBytes + FecParityBytes

  const SyncLength := 60
  const DelayBound := SyncLength + 5
  const BurstFrames := 8
  const BurstGapBytes := FecCodewordBytes + 2 * DelayBound * VectorBytes
  const TerminatorLength := 3

  /** Number of slots in the per-unit delay array. */
  const DelayArraySize := 15

  // ---------------------------------------------------------------------
  // Integer helpers
  // ---------------------------------------------------------------------

  /** C/C++ integer division, which truncates toward zero: the remainder
      has the sign of the dividend and is smaller than the divisor. */
  function TruncDiv(a: int, b: int): (q: int)
    requires b > 0
    ensures a >= 0 ==> 0 <= a - b * q < b
    ensures a < 0 ==> -b < a - b * q <= 0
  {
    if a >= 0 then a / b else -((-a) / b)
  }

  /** `static_cast<int16s>(x)`: two's-complement truncation to 16 bits. */
  function Int16(x: int): (r: int)
    ensures -32768 <= r < 32768
    ensures (x - r) % 65536 == 0
    ensures -32768 <= x < 32768 ==> r == x
  {
    (x + 32768) % 65536 - 32768
  }

  /** BLOCKS_ROUND_UP<B>(p) and BLK_ROUNDUP(p, B): (p + B - 1) / B in C++ arithmetic. */
  function BlocksRoundUp(payload: int, blockSize: int): int
    requires blockSize > 0
  {
    TruncDiv(payload + blockSize - 1, blockSize)
  }

  /** For a non-negative payload the rounding is the ceiling: the smallest
      number of blocks that holds the payload. */
  lemma BlocksRoundUpIsCeiling(payload: int, blockSize: int)
    requires payload >= 0 && blockSize > 0
    ensures var r := BlocksRoundUp(payload, blockSize);
      r >= 0 && blockSize * r >= payload && blockSize * (r - 1) < payload
  {
    var r := BlocksRoundUp(payload, blockSize);
    var n := payload + blockSize - 1;
    assert r == n / blockSize;
    assert blockSize * r <= n < blockSize * r + blockSize;
  }

  // ---------------------------------------------------------------------
  // Block types
  // ---------------------------------------------------------------------

  /** Column and vector types. XBlock and YBlock are the two further types
      the NG-EPON stages use (YBlock is the parity placeholder); their flag
      values are not part of this model. */
  datatype BlockType =
    | CBlock  // control / idle
    | SBlock  // start of frame
    | DBlock  // data
    | TBlock  // terminate
    | EBlock  // errored
    | PBlock  // parity
    | ZBlock  // zero block, end of burst
    | LBlock  // burst delimiter
    | NBlock  // burst sync pattern
    | XBlock
    | YBlock
  {
    /** The types that have a flag value in the blk_t enumeration. */
    predicate Enumerated() { !XBlock? && !YBlock? }
  }

  /** A `blk_t` bit mask, seen as the set of types whose flags it holds. */
  type Mask = set<BlockType>

  /** The blk_t flag of an enumerated type. */
  function Flag(t: BlockType): bv16
    requires t.Enumerated()
  {
    match t
    case CBlock => 0x0001
    case SBlock => 0x0002
    case DBlock => 0x0004
    case TBlock => 0x0008
    case EBlock => 0x0010
    case PBlock => 0x0020
    case ZBlock => 0x0040
    case LBlock => 0x0080
    case NBlock => 0x0100
  }

  /** The bit mask that ORs the flags of the enumerated types in m. */
  function MaskBits(m: Mask): bv16 {
    (if CBlock in m then 0x0001 else 0) | (if SBlock in m then 0x0002 else 0)
    | (if DBlock in m then 0x0004 else 0) | (if TBlock in m then 0x0008 else 0)
    | (if EBlock in m then 0x0010 else 0) | (if PBlock in m then 0x0020 else 0)
    | (if ZBlock in m then 0x0040 else 0) | (if LBlock in m then 0x0080 else 0)
    | (if NBlock in m then 0x0100 else 0)
  }

  /** `IsType(mask)`: the type's flag is set in the mask. */
  predicate IsType(t: BlockType, mask: Mask) {
    t in mask
  }

  /** The bit test `(flag & mask) != 0` of the source is set membership. */
  lemma IsTypeIsBitTest(t: BlockType, m: Mask)
    requires t.Enumerated()
    ensures ((Flag(t) & MaskBits(m)) != 0) <==> IsType(t, m)
  {
  }

  /** BlockName: the one-letter name of a type, '-' for a value the
      enumeration does not list. */
  function BlockName(t: BlockType): (c: char)
    ensures c == '-' <==> !t.Enumerated()
  {
    match t
    case CBlock => 'C'
    case SBlock => 'S'
    case DBlock => 'D'
    case TBlock => 'T'
    case EBlock => 'E'
    case PBlock => 'P'
    case ZBlock => 'Z'
    case LBlock => 'L'
    case NBlock => 'N'
    case _ => '-'
  }

  // ---------------------------------------------------------------------
  // Timestamps and delay measurement
  // ---------------------------------------------------------------------

  /** timestamp_t: the creation time of a unit and the delay samples taken
      so far, by stage slot (a slot never measured is absent). */
  datatype Stamp = Stamp(time: int, delay: map<int, int>)

  function FreshStamp(time: int): Stamp {
    Stamp(time, map[])
  }

  /** MeasureDelay(ndx) at clock `now`: the slot gets the residence time
      since the last stamp, cast to 16 bits, and the stamp moves to `now`. */
  function MeasureDelay(s: Stamp, ndx: int, now: int): (r: Stamp)
    ensures r.time == now
    ensures r.delay.Keys == s.delay.Keys + {ndx}
    ensures r.delay[ndx] == Int16(now - s.time)
    ensures forall k :: k in s.delay && k != ndx ==> r.delay[k] == s.delay[k]
  {
    Stamp(now, s.delay[ndx := Int16(now - s.time)])
  }

  /** A unit's trip through a sequence of stages: each hop is (slot, clock). */
  function StampPath(s: Stamp, hops: seq<(int, int)>): Stamp
    decreases |hops|
  {
    if hops == [] then s else StampPath(MeasureDelay(s, hops[0].0, hops[0].1), hops[1..])
  }

  /** Sum of the delay samples a unit holds in the slots the hops name. */
  function SumDelays(d: map<int, int>, hops: seq<(int, int)>): int
    decreases |hops|
  {
    if hops == [] then 0
    else (if hops[0].0 in d then d[hops[0].0] else 0) + SumDelays(d, hops[1..])
  }

  /** Clocks never go backwards along the path, and no hop lasts 2^15 byte times. */
  ghost predicate WellTimed(start: int, hops: seq<(int, int)>) {
    && (hops != [] ==> start <= hops[0].1 < start + 32768)
    && forall i :: 0 < i < |hops| ==> hops[i - 1].1 <= hops[i].1 < hops[i - 1].1 + 32768
  }

  ghost predicate DistinctSlots(hops: seq<(int, int)>) {
    forall i, j :: 0 <= i < j < |hops| ==> hops[i].0 != hops[j].0
  }

  /** Hops that name other slots leave a slot's sample alone. */
  lemma {:induction false} StampPathKeeps(s: Stamp, hops: seq<(int, int)>, k: int)
    requires k in s.delay
    requires forall i :: 0 <= i < |hops| ==> hops[i].0 != k
    ensures k in StampPath(s, hops).delay && StampPath(s, hops).delay[k] == s.delay[k]
    decreases |hops|
  {
    if hops != [] {
      StampPathKeeps(MeasureDelay(s, hops[0].0, hops[0].1), hops[1..], k);
    }
  }

  /** After the last hop the unit carries that hop's clock. */
  lemma {:induction false} StampPathTime(s: Stamp, hops: seq<(int, int)>)
    requires hops != []
    ensures StampPath(s, hops).time == hops[|hops| - 1].1
    decreases |hops|
  {
    var rest := hops[1..];
    if rest != [] {
      StampPathTime(MeasureDelay(s, hops[0].0, hops[0].1), rest);
      assert rest[|rest| - 1] == hops[|hops| - 1];
    }
  }

  /** The per-stage delays of a unit add up to its whole time in the
      pipeline: every stage measures only its own residence time. */
  lemma {:induction false} StampPathTelescopes(s: Stamp, hops: seq<(int, int)>)
    requires hops != []
    requires WellTimed(s.time, hops) && DistinctSlots(hops)
    ensures SumDelays(StampPath(s, hops).delay, hops) == hops[|hops| - 1].1 - s.time
    decreases |hops|
  {
    var s' := MeasureDelay(s, hops[0].0, hops[0].1);
    var rest := hops[1..];
    var f := StampPath(s', rest);
    assert s'.delay[hops[0].0] == hops[0].1 - s.time;
    forall i | 0 <= i < |rest| ensures rest[i].0 != hops[0].0 {
      assert rest[i] == hops[i + 1];
    }
    StampPathKeeps(s', rest, hops[0].0);
    if rest != [] {
      assert WellTimed(s'.time, rest) by {
        assert rest[0] == hops[1];
        forall i | 0 < i < |rest| ensures rest[i - 1].1 <= rest[i].1 < rest[i - 1].1 + 32768 {
          assert rest[i] == hops[i + 1] && rest[i - 1] == hops[i];
        }
      }
      assert DistinctSlots(rest) by {
        forall i, j | 0 <= i < j < |rest| ensures rest[i].0 != rest[j].0 {
          assert rest[i] == hops[i + 1] && rest[j] == hops[j + 1];
        }
      }
      StampPathTelescopes(s', rest);
      assert rest[|rest| - 1] == hops[|hops| - 1];
    }
  }

  // ---------------------------------------------------------------------
  // Columns (_36b_t), vectors (_72b_t), 66-bit blocks (_66b_t)
  // ---------------------------------------------------------------------

  /** One XGMII/25GMII transfer: a typed column with a sequence number
      (-1 when it has none). */
  datatype Column = Column(stamp: Stamp, kind: BlockType, seqNo: int)

  /** `_36b_t(blk)`: timestamp 0, no sequence number. */
  function TypedColumn(kind: BlockType): (c: Column)
    ensures c.kind == kind && c.seqNo == -1 && c.stamp.time == 0
  {
    Column(FreshStamp(0), kind, -1)
  }

  /** `_36b_t()` and IDLE_COLUMN. */
  function IdleColumn(): Column { TypedColumn(CBlock) }

  predicate ColumnIsType(c: Column, mask: Mask) { IsType(c.kind, mask) }

  /** Two columns: lane 0 and lane 1. */
  datatype Vector = Vector(c0: Column, c1: Column)

  /** `_72b_t(stamp, blk, seq)`: both lanes the same column. */
  function UniformVector(time: int, kind: BlockType, seqNo: int): (v: Vector)
    ensures v.c0 == v.c1 == Column(FreshStamp(time), kind, seqNo)
  {
    var c := Column(FreshStamp(time), kind, seqNo);
    Vector(c, c)
  }

  /** IDLE_VECTOR and `_72b_t()`. */
  function IdleVector(): Vector { UniformVector(0, CBlock, -1) }

  /** `operator[](index)`: only the low bit of the index selects the lane. */
  function Lane(v: Vector, index: int): (c: Column) {
    if index % 2 == 0 then v.c0 else v.c1
  }

  /** `vector[index] = c`. */
  function WithLane(v: Vector, index: int, c: Column): (r: Vector)
    ensures Lane(r, index) == c && Lane(r, index + 1) == Lane(v, index + 1)
  {
    if index % 2 == 0 then v.(c0 := c) else v.(c1 := c)
  }

  /** Lane addressing ignores everything but the low bit: i and i + 2 name
      the same lane, and i and i + 1 the two different ones. */
  lemma LaneIndexMasked(v: Vector, i: int)
    ensures Lane(v, i + 2) == Lane(v, i)
    ensures {Lane(v, i), Lane(v, i + 1)} == {v.c0, v.c1}
  {
  }

  /** T_TYPE: the aggregate type of a vector, by the precedence table on
      its two lane types. */
  function TType(v: Vector): BlockType {
    PairType(v.c0.kind, v.c1.kind)
  }

  function PairType(k0: BlockType, k1: BlockType): BlockType {
    if IsType(k0, {SBlock}) && IsType(k1, {DBlock}) then SBlock
    else if IsType(k0, {CBlock}) && IsType(k1, {SBlock}) then SBlock
    else if IsType(k0, {DBlock}) && IsType(k1, {TBlock}) then TBlock
    else if IsType(k0, {TBlock}) && IsType(k1, {CBlock}) then TBlock
    else if IsType(k0, {DBlock}) && IsType(k1, {DBlock}) then DBlock
    else if IsType(k0, {CBlock}) && IsType(k1, {CBlock}) then CBlock
    else if IsType(k0, {PBlock}) && IsType(k1, {PBlock}) then PBlock
    else if IsType(k0, {LBlock}) && IsType(k1, {LBlock}) then LBlock
    else if IsType(k0, {NBlock}) && IsType(k1, {NBlock}) then NBlock
    else if IsType(k0, {ZBlock}) && IsType(k1, {ZBlock}) then ZBlock
    else EBlock
  }

  /** The precedence table, as a total characterisation by lane types. */
  lemma TTypeTable(v: Vector)
    ensures var k0, k1 := v.c0.kind, v.c1.kind;
      && (TType(v) == SBlock <==> (k0, k1) == (SBlock, DBlock) || (k0, k1) == (CBlock, SBlock))
      && (TType(v) == TBlock <==> (k0, k1) == (DBlock, TBlock) || (k0, k1) == (TBlock, CBlock))
      && (TType(v) == DBlock <==> k0 == k1 == DBlock)
      && (TType(v) == CBlock <==> k0 == k1 == CBlock)
      && (TType(v) == PBlock <==> k0 == k1 == PBlock)
      && (TType(v) == LBlock <==> k0 == k1 == LBlock)
      && (TType(v) == NBlock <==> k0 == k1 == NBlock)
      && (TType(v) == ZBlock <==> k0 == k1 == ZBlock)
      && (TType(v) == EBlock <==>
            !((k0, k1) in {(SBlock, DBlock), (CBlock, SBlock), (DBlock, TBlock), (TBlock, CBlock)})
            && !(k0 == k1 && k0 in {DBlock, CBlock, PBlock, LBlock, NBlock, ZBlock}))
  {
  }

  /** A vector whose two lanes carry the same type has that type, for every
      type of the homogeneous list, and the error type otherwise. */
  lemma TTypeUniform(time: int, kind: BlockType, seqNo: int)
    ensures TType(UniformVector(time, kind, seqNo)) ==
      if kind in {DBlock, CBlock, PBlock, LBlock, NBlock, ZBlock} then kind else EBlock
  {
  }

  predicate VectorIsType(v: Vector, mask: Mask) { IsType(TType(v), mask) }

  datatype SyncHeader = ShData | ShCtrl | ShPrty | ShNone

  /** The sync header the _66b_t constructors derive from a vector. */
  function SyncHeaderOf(v: Vector): SyncHeader {
    if VectorIsType(v, {DBlock}) then ShData
    else if VectorIsType(v, {PBlock}) then ShPrty
    else if VectorIsType(v, {CBlock, SBlock, TBlock}) then ShCtrl
    else ShNone
  }

  /** The header by vector type, in both directions. */
  lemma SyncHeaderByType(v: Vector)
    ensures SyncHeaderOf(v) == ShData <==> TType(v) == DBlock
    ensures SyncHeaderOf(v) == ShPrty <==> TType(v) == PBlock
    ensures SyncHeaderOf(v) == ShCtrl <==> TType(v) in {CBlock, SBlock, TBlock}
    ensures SyncHeaderOf(v) == ShNone <==> TType(v) in {EBlock, ZBlock, LBlock, NBlock}
  {
  }

  /** A 66-bit block: a vector and its sync header. */
  datatype Block66 = Block66(vector: Vector, header: SyncHeader)

  /** `_66b_t(vector)`. */
  function Encode66(v: Vector): (b: Block66)
    ensures b.vector == v && b.header == SyncHeaderOf(v)
  {
    Block66(v, SyncHeaderOf(v))
  }

  /** `_66b_t(0, blk)`: a uniform block with no sequence number. */
  function Uniform66(kind: BlockType): Block66 {
    Encode66(UniformVector(0, kind, -1))
  }

  /** The blocks the data detectors emit and the header each one gets. */
  lemma Uniform66Headers()
    ensures Uniform66(CBlock).header == ShCtrl
    ensures Uniform66(PBlock).header == ShPrty
    ensures Uniform66(NBlock).header == ShNone
    ensures Uniform66(LBlock).header == ShNone
    ensures Uniform66(ZBlock).header == ShNone
  {
  }

  /** The header depends on the lane types only, so stamping a vector does
      not change it. */
  lemma SyncHeaderIgnoresStamps(v: Vector, s0: Stamp, s1: Stamp)
    ensures SyncHeaderOf(Vector(v.c0.(stamp := s0), v.c1.(stamp := s1))) == SyncHeaderOf(v)
  {
  }

  // ---------------------------------------------------------------------
  // MAC frames (_frm_t)
  // ---------------------------------------------------------------------

  /** A MAC frame: only its byte count and its timestamp. */
  datatype Frame = Frame(stamp: Stamp, size: int)

  function EmptyFrame(): Frame { Frame(FreshStamp(0), 0) }

  /** AddColumn: an S column restarts the frame at one column's worth of
      bytes and adopts the column's timestamp; D and T add a column's worth;
      every other type leaves the frame as it is. */
  function AddColumn(f: Frame, c: Column): (r: Frame)
    ensures c.kind == SBlock ==> r == Frame(c.stamp, ColumnBytes)
    ensures c.kind in {DBlock, TBlock} ==> r == f.(size := f.size + ColumnBytes)
    ensures c.kind !in {SBlock, DBlock, TBlock} ==> r == f
  {
    if ColumnIsType(c, {SBlock}) then Frame(c.stamp, ColumnBytes)
    else if ColumnIsType(c, {DBlock, TBlock}) then f.(size := f.size + ColumnBytes)
    else f
  }

  /** Frame size after a whole column sequence. */
  function AddColumns(f: Frame, cs: seq<Column>): Frame
    decreases |cs|
  {
    if cs == [] then f else AddColumns(AddColumn(f, cs[0]), cs[1..])
  }

  /** A column run S, D..., T rebuilds a frame of one column's worth of
      bytes per column, whatever the frame held before. */
  lemma {:induction false} AddColumnsCountsBytes(f: Frame, cs: seq<Column>)
    requires forall i :: 0 <= i < |cs| ==> cs[i].kind in {DBlock, TBlock}
    ensures AddColumns(f, cs) == f.(size := f.size + ColumnBytes * |cs|)
    decreases |cs|
  {
    if cs != [] {
      AddColumnsCountsBytes(AddColumn(f, cs[0]), cs[1..]);
    }
  }

  // ---------------------------------------------------------------------
  // Delay stamping of each unit kind (what a stage's output operator does)
  // ---------------------------------------------------------------------

  function StampColumn(c: Column, ndx: int, now: int): Column {
    c.(stamp := MeasureDelay(c.stamp, ndx, now))
  }

  /** `_72b_t::MeasureDelay`: both lanes are stamped. */
  function StampVector(v: Vector, ndx: int, now: int): (r: Vector)
    ensures r.c0.kind == v.c0.kind && r.c1.kind == v.c1.kind
    ensures r.c0.seqNo == v.c0.seqNo && r.c1.seqNo == v.c1.seqNo
    ensures r.c0.stamp == MeasureDelay(v.c0.stamp, ndx, now)
    ensures r.c1.stamp == MeasureDelay(v.c1.stamp, ndx, now)
  {
    Vector(StampColumn(v.c0, ndx, now), StampColumn(v.c1, ndx, now))
  }

  function StampBlock66(b: Block66, ndx: int, now: int): (r: Block66)
    ensures r.header == b.header && TType(r.vector) == TType(b.vector)
  {
    b.(vector := StampVector(b.vector, ndx, now))
  }

  function StampFrame(f: Frame, ndx: int, now: int): (r: Frame)
    ensures r.size == f.size && r.stamp == MeasureDelay(f.stamp, ndx, now)
  {
    f.(stamp := MeasureDelay(f.stamp, ndx, now))
  }
}
