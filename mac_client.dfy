/** The MAC client traffic source (fsm_mac_client_t and its NG-EPON copy
    fsm_ngepon_macc_t): a countdown to the next frame, and in burst mode a
    long gap after every BURST_FRAMES frames. Packet sizes come from an
    injected source and are a parameter here. */
module MacClient {
  import opened Blocks

  datatype ClientState = ClientState(counter: int, frameCount: int, frameWaiting: bool)

  /** The constructor's state: the first frame is due after a burst gap in
      burst mode (an ONU) and after the minimum gap otherwise (the OLT). */
  function InitialClient(burstMode: bool): (s: ClientState)
    ensures s.frameCount == 0 && !s.frameWaiting
    ensures s.counter == if burstMode then BurstGapBytes else MinIpgBytes
  {
    ClientState(if burstMode then BurstGapBytes else MinIpgBytes, 0, false)
  }

  /** The countdown never leaves [0, BURST_GAP_BYTES] (so the 16-bit counter
      of the source cannot overflow), and a burst that has ended leaves the
      countdown at 0 until the gap is scheduled. */
  predicate ClientInv(s: ClientState) {
    && 0 <= s.counter <= BurstGapBytes
    && s.frameCount >= 0
    && (!s.frameWaiting && s.frameCount >= BurstFrames ==> s.counter == 0)
  }

  /** IncrementMACClientClock. */
  function Tick(s: ClientState): (r: ClientState)
    ensures r.counter == if s.counter > 0 then s.counter - 1 else s.counter
    ensures r.frameCount == s.frameCount && r.frameWaiting == s.frameWaiting
  {
    if s.counter > 0 then s.(counter := s.counter - 1) else s
  }

  function TickRun(s: ClientState, k: nat): ClientState
    decreases k
  {
    if k == 0 then s else TickRun(Tick(s), k - 1)
  }

  /** FrameAvailable: the first call after a transmit schedules the next
      frame, adding the burst gap when a burst has ended; every call says
      whether the countdown has run out. */
  function Schedule(s: ClientState, burstMode: bool): (r: (ClientState, bool))
    ensures r.1 <==> r.0.counter <= 0
    ensures r.0.frameWaiting
  {
    if !s.frameWaiting then
      var s1 := s.(frameWaiting := true);
      var s2 := if burstMode && s1.frameCount >= BurstFrames
                then s1.(frameCount := 0, counter := s1.counter + BurstGapBytes)
                else s1;
      (s2, s2.counter <= 0)
    else
      (s, s.counter <= 0)
  }

  /** TransmitUnit: legal only once the countdown has run out (the source
      exits otherwise); counts the frame and unlocks the scheduler. */
  function Transmit(s: ClientState, now: int, packetSize: int): (r: (ClientState, Frame))
    requires s.counter <= 0
    ensures r.0 == s.(frameCount := s.frameCount + 1, frameWaiting := false)
    ensures r.1 == Frame(FreshStamp(now), packetSize)
  {
    (s.(frameCount := s.frameCount + 1, frameWaiting := false), Frame(FreshStamp(now), packetSize))
  }

  /** GrantStart: the frame just sent is the first of its burst. */
  predicate FirstOfBurst(s: ClientState) {
    s.frameCount == 1
  }

  lemma InvInitial(burstMode: bool)
    ensures ClientInv(InitialClient(burstMode))
  {
  }

  lemma InvPreserved(s: ClientState, burstMode: bool, now: int, packetSize: int)
    requires ClientInv(s)
    ensures ClientInv(Tick(s))
    ensures ClientInv(Schedule(s, burstMode).0)
    ensures s.counter <= 0 ==> ClientInv(Transmit(s, now, packetSize).0)
  {
  }

  /** Scheduling happens once per transmitted frame: while a frame is
      waiting, FrameAvailable changes nothing and answers the same. */
  lemma ScheduleIdempotent(s: ClientState, burstMode: bool)
    ensures Schedule(Schedule(s, burstMode).0, burstMode) == Schedule(s, burstMode)
    ensures s.frameWaiting ==> Schedule(s, burstMode).0 == s
  {
  }

  /** After k clock ticks the countdown has run down by k, stopping at 0. */
  lemma {:induction false} TickRunCountsDown(s: ClientState, k: nat)
    requires s.counter >= 0
    ensures TickRun(s, k) == s.(counter := if s.counter >= k then s.counter - k else 0)
    decreases k
  {
    if k > 0 {
      TickRunCountsDown(Tick(s), k - 1);
    }
  }

  /** In burst mode, the frame after the last frame of a burst comes only
      after a gap of BURST_GAP_BYTES byte times: FrameAvailable answers no
      for the first BURST_GAP_BYTES - 1 ticks and yes from then on, and the
      next frame restarts the burst count, so that it is a grant start. */
  lemma BurstGap(s: ClientState, k: nat, now: int, packetSize: int)
    requires ClientInv(s) && !s.frameWaiting && s.frameCount >= BurstFrames
    ensures var gapped := Schedule(s, true).0;
      && gapped.counter == BurstGapBytes && gapped.frameCount == 0
      && (Schedule(TickRun(gapped, k), true).1 <==> k >= BurstGapBytes)
      && (k >= BurstGapBytes ==> FirstOfBurst(Transmit(TickRun(gapped, k), now, packetSize).0))
  {
    TickRunCountsDown(Schedule(s, true).0, k);
  }

  /** Outside burst mode frames are never held back by a gap: a frame is
      available again as soon as the previous one has been taken. */
  lemma BackToBack(s: ClientState, now: int, packetSize: int)
    requires s.counter <= 0
    ensures Schedule(Transmit(s, now, packetSize).0, false).1
  {
  }

  /** fsm_mac_client_t and fsm_ngepon_macc_t. */
  class Client {
    const burstMode: bool
    var frameReadyCounter: int
    var frameCount: int
    var frameWaiting: bool

    function State(): ClientState
      reads this
    {
      ClientState(frameReadyCounter, frameCount, frameWaiting)
    }

    ghost predicate Valid()
      reads this
    {
      ClientInv(State())
    }

    constructor (burstMode: bool)
      ensures Valid() && this.burstMode == burstMode && State() == InitialClient(burstMode)
    {
      this.burstMode := burstMode;
      frameCount := 0;
      frameWaiting := false;
      frameReadyCounter := if burstMode then BurstGapBytes else MinIpgBytes;
    }

    predicate GrantStart()
      reads this
      ensures GrantStart() <==> FirstOfBurst(State())
    {
      frameCount == 1
    }

    method IncrementMacClientClock()
      requires Valid()
      modifies this
      ensures Valid() && State() == Tick(old(State()))
    {
      if frameReadyCounter > 0 {
        frameReadyCounter := frameReadyCounter - 1;
      }
    }

    method FrameAvailable() returns (available: bool)
      requires Valid()
      modifies this
      ensures Valid() && (State(), available) == Schedule(old(State()), burstMode)
    {
      if !frameWaiting {
        frameWaiting := true;
        if burstMode && frameCount >= BurstFrames {
          frameCount := 0;
          frameReadyCounter := frameReadyCounter + BurstGapBytes;
        }
      }
      available := frameReadyCounter <= 0;
    }

    /** The frame, stamped with the clock `now` and sized by the injected
        packet-size source. */
    method TransmitUnit(now: int, packetSize: int) returns (frame: Frame)
      requires Valid() && frameReadyCounter <= 0
      modifies this
      ensures Valid() && (State(), frame) == Transmit(old(State()), now, packetSize)
    {
      frameCount := frameCount + 1;
      frameWaiting := false;
      frame := Frame(FreshStamp(now), packetSize);
    }
  }
}
