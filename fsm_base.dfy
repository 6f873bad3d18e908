/** The stage protocol every state machine shares: a buffered output unit,
    a ready flag, and an output operator that takes the unit from the stage
    and records the stage's residence time in the unit's delay slot. */
module Stages {
  import opened Blocks

  // Delay slots of the 10G-EPON stages (FSM_base.h:126-140). The NG-EPON
  // stages use further slots whose numbers are not part of this model.
  const DlyMacClient := 0
  const DlyMpcpTx := 1
  const DlyMacTx := 2
  const DlyXgmiiTx := 3
  const DlyIdleDel := 4
  const Dly66bEncoder := 5
  const DlyScrambler := 6
  const DlyDataDet := 7
  const DlyFecDecoder := 8
  const DlyDescrambler := 9
  const Dly66bDecoder := 10
  const DlyIdleIns := 11
  const DlyXgmiiRx := 12
  const DlyMacRx := 13
  const DlyMpcpRx := 14

  /** The upstream order of the 10G-EPON stages, as their slots. */
  function UpstreamSlots(): (s: seq<int>)
    ensures |s| == DelayArraySize
    ensures forall i :: 0 <= i < |s| ==> s[i] == i
  {
    [DlyMacClient, DlyMpcpTx, DlyMacTx, DlyXgmiiTx, DlyIdleDel, Dly66bEncoder,
     DlyScrambler, DlyDataDet, DlyFecDecoder, DlyDescrambler, Dly66bDecoder,
     DlyIdleIns, DlyXgmiiRx, DlyMacRx, DlyMpcpRx]
  }

  /** The hops of a unit that visits every 10G-EPON stage once, leaving
      stage i at clocks[i]. */
  function UpstreamHops(clocks: seq<int>): (hops: seq<(int, int)>)
    requires |clocks| == DelayArraySize
    ensures |hops| == DelayArraySize
    ensures forall i :: 0 <= i < |hops| ==> hops[i] == (UpstreamSlots()[i], clocks[i])
  {
    seq(DelayArraySize, i requires 0 <= i < DelayArraySize => (UpstreamSlots()[i], clocks[i]))
  }

  /** A unit that leaves the MAC client at clock `start` and passes through
      the whole upstream path, no stage holding it for 2^15 byte times or
      more, carries delay samples that add up to its end-to-end latency. */
  lemma UpstreamDelaysAddUp(start: int, clocks: seq<int>)
    requires |clocks| == DelayArraySize
    requires start <= clocks[0] < start + 32768
    requires forall i :: 0 < i < |clocks| ==> clocks[i - 1] <= clocks[i] < clocks[i - 1] + 32768
    ensures SumDelays(StampPath(FreshStamp(start), UpstreamHops(clocks)).delay, UpstreamHops(clocks))
      == clocks[DelayArraySize - 1] - start
  {
    var hops := UpstreamHops(clocks);
    assert WellTimed(start, hops) by {
      forall i | 0 < i < |hops| ensures hops[i - 1].1 <= hops[i].1 < hops[i - 1].1 + 32768 {
        assert hops[i - 1].1 == clocks[i - 1] && hops[i].1 == clocks[i];
      }
    }
    StampPathTelescopes(FreshStamp(start), hops);
  }

  /** A stage whose ReceiveUnit latches a conversion of its input and whose
      TransmitUnit is the default one: fsm_base_t together with the
      pass-through stages built on it. `measure` is the output unit's
      MeasureDelay, `slot` the stage's delay slot. */
  class Latch<I, O> {
    const slot: int
    const convert: I -> O
    const measure: (O, int, int) -> O
    var outputBlock: O
    var outputReady: bool

    /** A new stage is not ready; its output unit is the default one. */
    constructor (slot: int, convert: I -> O, measure: (O, int, int) -> O, init: O)
      ensures this.slot == slot && this.convert == convert && this.measure == measure
      ensures outputBlock == init && !outputReady
    {
      this.slot := slot;
      this.convert := convert;
      this.measure := measure;
      outputBlock := init;
      outputReady := false;
    }

    predicate OutputReady()
      reads this
    {
      outputReady
    }

    /** `stage << unit`. */
    method ReceiveUnit(x: I)
      modifies this
      ensures outputBlock == convert(x) && outputReady
    {
      outputBlock := convert(x);
      outputReady := true;
    }

    /** The default TransmitUnit: the buffered unit, and the stage is no
        longer ready. The buffer keeps the unit. */
    method TransmitUnit() returns (r: O)
      modifies this
      ensures r == old(outputBlock) && outputBlock == old(outputBlock)
      ensures !outputReady
    {
      outputReady := false;
      r := outputBlock;
    }

    /** The output operator at clock `now`: TransmitUnit, then the unit's
        delay measurement in this stage's slot. */
    method Output(now: int) returns (r: O)
      modifies this
      ensures r == measure(old(outputBlock), slot, now)
      ensures outputBlock == old(outputBlock) && !outputReady
    {
      r := TransmitUnit();
      r := measure(r, slot, now);
    }
  }
}
