/** The XGMII / 25GMII lane packers (identical in the 10G-EPON, 25GMII and
    NG-EPON files): TX packs two consecutive columns into one vector, RX
    hands the lanes of the last vector out one at a time, alternately. */
module Lanes {
  import opened Blocks

  /** fsm_xgmii_tx_t, fsm_25GMII_tx_t and fsm_ngepon_25gmii_tx_t. */
  class LaneTx {
    var vector: Vector
    var columnCount: int
    var outputReady: bool
    /** Every column received so far, oldest first. */
    ghost var received: seq<Column>

    /** The lane counter is the parity of the number of columns received;
        at a pair boundary the vector holds the last two columns in arrival
        order, and mid-pair lane 0 holds the newest column. */
    ghost predicate Valid()
      reads this
    {
      && columnCount == |received| % 2
      && (columnCount == 0 && |received| >= 2 ==>
            vector == Vector(received[|received| - 2], received[|received| - 1]))
      && (columnCount == 1 ==> vector.c0 == received[|received| - 1])
    }

    constructor (init: Vector)
      ensures Valid() && columnCount == 0 && !outputReady && received == [] && vector == init
    {
      vector := init;
      columnCount := 0;
      outputReady := false;
      received := [];
    }

    /** The column goes into lane column_count; the second column of a pair
        completes the vector and makes the stage ready. */
    method ReceiveUnit(column: Column)
      requires Valid()
      modifies this
      ensures Valid() && received == old(received) + [column]
      ensures vector == WithLane(old(vector), old(columnCount), column)
      ensures columnCount == 1 - old(columnCount)
      ensures outputReady == (old(outputReady) || old(columnCount) == 1)
    {
      vector := WithLane(vector, columnCount, column);
      columnCount := columnCount + 1;
      received := received + [column];
      if columnCount == 2 {
        outputReady := true;
        columnCount := 0;
      }
    }

    /** The stored vector; the stage is then not ready. */
    method TransmitUnit() returns (r: Vector)
      modifies this
      ensures r == vector && !outputReady
      ensures vector == old(vector) && columnCount == old(columnCount) && received == old(received)
    {
      outputReady := false;
      r := vector;
    }
  }

  /** `last_index ^= 1`. */
  function ToggleIndex(i: int): (r: int)
    requires i in {0, 1}
    ensures r in {0, 1} && r != i
  {
    if i == 0 then 1 else 0
  }

  /** fsm_xgmii_rx_t, fsm_25GMII_rx_t and fsm_ngepon_25gmii_rx_t. */
  class LaneRx {
    var vector: Vector
    var lastIndex: int
    var outputReady: bool

    ghost predicate Valid()
      reads this
    {
      lastIndex in {0, 1}
    }

    /** Ready from the start; the lane index starts at 0, so the first
        transmit gives lane 1. */
    constructor ()
      ensures Valid() && vector == IdleVector() && lastIndex == 0 && outputReady
    {
      vector := IdleVector();
      lastIndex := 0;
      outputReady := true;
    }

    method ReceiveUnit(v: Vector)
      modifies this
      ensures vector == v && lastIndex == old(lastIndex) && outputReady == old(outputReady)
    {
      vector := v;
    }

    /** Toggles the lane index, then gives that lane. */
    method TransmitUnit() returns (r: Column)
      requires Valid()
      modifies this
      ensures Valid() && lastIndex == ToggleIndex(old(lastIndex))
      ensures r == Lane(vector, lastIndex)
      ensures vector == old(vector) && outputReady == old(outputReady)
    {
      lastIndex := ToggleIndex(lastIndex);
      r := Lane(vector, lastIndex);
    }
  }

  /** Two transmits in a row give both lanes of the stored vector, one each. */
  method BothLanes(rx: LaneRx) returns (a: Column, b: Column)
    requires rx.Valid()
    modifies rx
    ensures rx.Valid() && rx.lastIndex == old(rx.lastIndex) && rx.vector == old(rx.vector)
    ensures {a, b} == {rx.vector.c0, rx.vector.c1}
    ensures a == Lane(rx.vector, old(rx.lastIndex) + 1) && b == Lane(rx.vector, old(rx.lastIndex))
  {
    a := rx.TransmitUnit();
    b := rx.TransmitUnit();
  }

  /** The i-th column out of the 25GMII hop: an idle column first, then
      column i - 1 measured in `txSlot` at the iteration that completed its
      pair (i when i is odd, i - 1 when it is even) and in `rxSlot` at
      iteration i. */
  function HopColumn(cols: seq<Column>, times: seq<int>, txSlot: int, rxSlot: int, i: int): Column
    requires |times| == |cols| && 0 <= i < |cols|
  {
    if i == 0 then StampColumn(IdleColumn(), rxSlot, times[0])
    else StampColumn(StampColumn(cols[i - 1], txSlot, times[i - 1 + i % 2]), rxSlot, times[i])
  }

  /** The vector RX holds after i iterations: the last completed pair, as
      TX's output operator measured it. */
  function HopVector(cols: seq<Column>, times: seq<int>, txSlot: int, i: int): Vector
    requires |times| == |cols| && 0 <= i <= |cols|
  {
    if i < 2 then IdleVector()
    else StampVector(Vector(cols[i - i % 2 - 2], cols[i - i % 2 - 1]), txSlot, times[i - i % 2 - 1])
  }

  /** The two samples a column takes on the hop: in TX's slot its wait
      from its last stamp until its pair left TX, in RX's slot its wait in
      RX until it was given out; every other sample is kept. */
  lemma HopDelays(cols: seq<Column>, times: seq<int>, txSlot: int, rxSlot: int, i: int)
    requires |times| == |cols| && 0 < i < |cols| && txSlot != rxSlot
    ensures var c := HopColumn(cols, times, txSlot, rxSlot, i);
      var sent := times[i - 1 + i % 2];
      && c.kind == cols[i - 1].kind && c.seqNo == cols[i - 1].seqNo
      && c.stamp.time == times[i]
      && c.stamp.delay.Keys == cols[i - 1].stamp.delay.Keys + {txSlot, rxSlot}
      && c.stamp.delay[txSlot] == Int16(sent - cols[i - 1].stamp.time)
      && c.stamp.delay[rxSlot] == Int16(times[i] - sent)
      && forall k :: k in cols[i - 1].stamp.delay && k != txSlot && k != rxSlot ==>
           c.stamp.delay[k] == cols[i - 1].stamp.delay[k]
  {
    var sent := times[i - 1 + i % 2];
    var s1 := MeasureDelay(cols[i - 1].stamp, txSlot, sent);
    assert HopColumn(cols, times, txSlot, rxSlot, i).stamp == MeasureDelay(s1, rxSlot, times[i]);
  }

  /** One iteration of the hop: on an even iteration RX keeps its vector
      and gives lane 1; on an odd one it takes the pair just completed and
      gives lane 0. */
  lemma HopStep(cols: seq<Column>, times: seq<int>, txSlot: int, rxSlot: int, i: int)
    requires |times| == |cols| && 0 <= i < |cols|
    ensures i % 2 == 0 ==> HopVector(cols, times, txSlot, i + 1) == HopVector(cols, times, txSlot, i)
    ensures i % 2 == 1 ==>
      HopVector(cols, times, txSlot, i + 1) == StampVector(Vector(cols[i - 1], cols[i]), txSlot, times[i])
    ensures HopColumn(cols, times, txSlot, rxSlot, i)
      == StampColumn(Lane(HopVector(cols, times, txSlot, i + 1), (i + 1) % 2), rxSlot, times[i])
  {
    if i % 2 == 1 {
      assert (i + 1) % 2 == 0 && i + 1 - 0 - 2 == i - 1;
    } else if i >= 2 {
      assert (i + 1) % 2 == 1 && i + 1 - 1 - 2 == i - 2;
    }
  }

  /** Iteration i of the hop: TX takes column i, a completed vector moves
      through TX's output operator into RX, and RX's output operator gives
      column i of the output. */
  method HopIteration(tx: LaneTx, rx: LaneRx, cols: seq<Column>, times: seq<int>, txSlot: int, rxSlot: int, i: int)
    returns (c: Column)
    requires |times| == |cols| && 0 <= i < |cols|
    requires tx.Valid() && rx.Valid() && tx.received == cols[..i]
    requires !tx.outputReady && rx.lastIndex == i % 2
    requires rx.vector == HopVector(cols, times, txSlot, i)
    modifies tx, rx
    ensures tx.Valid() && rx.Valid() && tx.received == cols[..i + 1]
    ensures !tx.outputReady && rx.lastIndex == (i + 1) % 2
    ensures rx.vector == HopVector(cols, times, txSlot, i + 1)
    ensures c == HopColumn(cols, times, txSlot, rxSlot, i)
  {
    HopStep(cols, times, txSlot, rxSlot, i);
    tx.ReceiveUnit(cols[i]);
    assert cols[..i + 1] == cols[..i] + [cols[i]];
    if tx.outputReady {
      var v := tx.TransmitUnit();
      assert v == Vector(cols[i - 1], cols[i]);
      rx.ReceiveUnit(StampVector(v, txSlot, times[i]));
    }
    c := rx.TransmitUnit();
    c := StampColumn(c, rxSlot, times[i]);
  }

  /** The 25GMII hop as the driver runs it, one iteration per input
      column at clock `times[i]`: the column goes into TX; a completed
      vector leaves TX through its output operator, which measures both
      lanes in slot `txSlot`, and goes into RX; RX gives out one column
      through its output operator, which measures it in slot `rxSlot`. The
      column stream comes out whole and in order, one column late, behind
      one idle column; each column keeps its type and sequence number and
      carries the two hop measurements. */
  method Loopback(cols: seq<Column>, times: seq<int>, txSlot: int, rxSlot: int) returns (out: seq<Column>)
    requires |times| == |cols|
    ensures |out| == |cols|
    ensures forall i :: 0 <= i < |cols| ==> out[i] == HopColumn(cols, times, txSlot, rxSlot, i)
    ensures forall i :: 0 < i < |cols| ==>
      out[i].kind == cols[i - 1].kind && out[i].seqNo == cols[i - 1].seqNo && out[i].stamp.time == times[i]
  {
    var tx := new LaneTx(IdleVector());
    var rx := new LaneRx();
    out := [];
    var i := 0;
    while i < |cols|
      invariant 0 <= i <= |cols|
      invariant tx.Valid() && rx.Valid() && tx.received == cols[..i]
      invariant !tx.outputReady && rx.lastIndex == i % 2
      invariant rx.vector == HopVector(cols, times, txSlot, i)
      invariant |out| == i
      invariant forall j :: 0 <= j < i ==> out[j] == HopColumn(cols, times, txSlot, rxSlot, j)
    {
      var c := HopIteration(tx, rx, cols, times, txSlot, rxSlot, i);
      out := out + [c];
      i := i + 1;
    }
  }
}
