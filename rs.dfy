/** The NG-EPON channel-bonding reconciliation sublayer, transmit direction
    (fsm_ngepon_rs_tx_t, after the multi-channel RS of IEEE 802.3ca
    Clause 143). Columns from the MAC are gathered into codewords in an
    8-entry ring per link; each codeword is word 0, a header naming the link
    and the entry, followed by PAYLOAD_SIZE - 1 payload columns. Each granted
    codeword goes out as its PAYLOAD_SIZE stored words and then PARITY_SIZE
    parity placeholder columns. Only link 0 carries data; the grant can be
    set on any link.

    The input process (ReceiveUnit) and the output process (TransmitUnit)
    share only the ring and its read cursor, so their states are modelled
    as two records. */
module ReconciliationTx {
  import opened Blocks

  /** Links, and entries in each link's ring. */
  const Links := 8
  const Entries := 8
  /** At most this many codewords may wait in a ring. */
  const Window := 4

  /** The input process on link 0: write cursors, the RECEIVE_WORD flag and
      the two input counters. */
  datatype RxSide = RxSide(entryWrite: int, wordWrite: int, receiveWord: bool, sequenceIn: int, countIn: int)

  /** The output process on link 0: the read cursors, the grant, the two
      transfer flags and the entry being sent. */
  datatype TxSide = TxSide(entryRead: int, wordRead: int, codeWordsLeft: int,
                           parityPhase: bool, payloadPhase: bool, entry: int)

  predicate Cursor(x: int) { 0 <= x < Entries }

  /** The ring cursor stays 3-bit, and while a codeword is being filled the
      next word lies inside it (a codeword needs room for the header and at
      least one payload word). */
  predicate RxInv(x: RxSide, payload: int) {
    && payload >= 2
    && Cursor(x.entryWrite)
    && (x.receiveWord ==> 1 <= x.wordWrite < payload)
  }

  /** The read cursors stay inside the ring and the grant non-negative, at
      most one transfer phase is active, and the word cursor of the active
      phase stays inside it. */
  predicate TxInv(t: TxSide, payload: int, parity: int) {
    && payload >= 1 && parity >= 1
    && Cursor(t.entryRead) && Cursor(t.entry) && t.codeWordsLeft >= 0
    && !(t.parityPhase && t.payloadPhase)
    && (t.payloadPhase ==> 0 <= t.wordRead < payload)
    && (t.parityPhase ==> 0 <= t.wordRead < parity)
  }

  /** Link 0's buffer: Entries codewords of `payload` words each. */
  predicate BufferShape(buf: seq<seq<Column>>, payload: int) {
    |buf| == Entries && forall e :: 0 <= e < Entries ==> |buf[e]| == payload
  }

  /** The constructor's state: every cursor, grant and counter 0, every
      flag false. The entry being sent is not set by the source's
      constructor; it is 0 here and is always set before it is used. */
  function InitialRx(): (x: RxSide)
    ensures forall payload :: payload >= 2 ==> RxInv(x, payload)
  {
    RxSide(0, 0, false, 0, 0)
  }

  function InitialTx(): (t: TxSide)
    ensures forall payload, parity :: payload >= 1 && parity >= 1 ==> TxInv(t, payload, parity)
  {
    TxSide(0, 0, 0, false, false, 0)
  }

  function InitialBuffer(payload: nat): (buf: seq<seq<Column>>)
    ensures BufferShape(buf, payload)
  {
    seq(Entries, _ => seq(payload, _ => IdleColumn()))
  }

  /** CbCtrlRequest: a grant can be extended, never truncated. */
  function Grant(left: int, request: int): (r: int)
    ensures r >= left && r >= request
    ensures r == left || r == request
  {
    if request < left then left else request
  }

  /** IsReadyForMoreData with the cursors taken modulo the ring size: fewer
      than Window codewords are waiting. */
  predicate Ready(w: int, r: int) {
    (w - r) % Entries < Window
  }

  /** The test as written: a plain difference of the two 3-bit cursors. */
  predicate AsWrittenReady(w: int, r: int) {
    w - r < Window
  }

  /** Columns that advance BlockSequenceIn. */
  predicate Counted(c: Column) {
    ColumnIsType(c, {DBlock}) || ColumnIsType(c, {SBlock}) || ColumnIsType(c, {TBlock})
  }

  function CountedIn(cs: seq<Column>): nat {
    if cs == [] then 0 else (if Counted(cs[0]) then 1 else 0) + CountedIn(cs[1..])
  }

  /** The entry a payload column is stored in, given the advanced write
      cursor: the entry whose header was just written, or, as written, the
      advanced cursor itself. */
  function StoreEntry(w: int, asWritten: bool): (e: int)
    requires Cursor(w)
    ensures Cursor(e)
  {
    if asWritten then w else (w + Entries - 1) % Entries
  }

  /** ReceiveUnit on link 0, given the read cursor. When the ring has room
      and no codeword is being filled, a new codeword starts: its header
      goes into word 0 of the write entry, the write cursor advances and
      word 1 is next. Both counters then advance, and while a codeword is
      being filled the column is its next word, the last one ending the
      codeword. A column arriving neither to start nor to fill a codeword is
      counted and dropped. */
  function RxStep(x: RxSide, entryRead: int, buf: seq<seq<Column>>, col: Column, payload: int,
                  header: (int, int) -> Column, asWritten: bool): (r: (RxSide, seq<seq<Column>>))
    requires RxInv(x, payload) && BufferShape(buf, payload)
    ensures RxInv(r.0, payload) && BufferShape(r.1, payload)
    ensures r.0.countIn == x.countIn + 1
    ensures r.0.sequenceIn == x.sequenceIn + (if Counted(col) then 1 else 0)
  {
    var started := RxStart(x, entryRead, buf, payload, header, asWritten);
    RxStore(RxCount(started.0, col), started.1, col, payload, asWritten)
  }

  /** INITIATE_CODEWORD_RX, when the ring has room and no codeword is being
      filled. */
  function RxStart(x: RxSide, entryRead: int, buf: seq<seq<Column>>, payload: int,
                   header: (int, int) -> Column, asWritten: bool): (r: (RxSide, seq<seq<Column>>))
    requires RxInv(x, payload) && BufferShape(buf, payload)
    ensures RxInv(r.0, payload) && BufferShape(r.1, payload)
    ensures r.0.countIn == x.countIn && r.0.sequenceIn == x.sequenceIn
  {
    var w := x.entryWrite;
    var open := if asWritten then AsWrittenReady(w, entryRead) else Ready(w, entryRead);
    if open && !x.receiveWord
    then (x.(entryWrite := (w + 1) % Entries, wordWrite := 1, receiveWord := true),
          buf[w := buf[w][0 := header(0, w)]])
    else (x, buf)
  }

  /** The two input counters. */
  function RxCount(x: RxSide, col: Column): (r: RxSide)
    ensures r.countIn == x.countIn + 1
    ensures r.sequenceIn == x.sequenceIn + (if Counted(col) then 1 else 0)
    ensures r.(countIn := x.countIn, sequenceIn := x.sequenceIn) == x
  {
    x.(countIn := x.countIn + 1, sequenceIn := if Counted(col) then x.sequenceIn + 1 else x.sequenceIn)
  }

  /** RECEIVE_WORD: the column becomes the next word of the codeword being
      filled; the last word ends the codeword. */
  function RxStore(x: RxSide, buf: seq<seq<Column>>, col: Column, payload: int, asWritten: bool): (r: (RxSide, seq<seq<Column>>))
    requires RxInv(x, payload) && BufferShape(buf, payload)
    ensures RxInv(r.0, payload) && BufferShape(r.1, payload)
    ensures r.0.countIn == x.countIn && r.0.sequenceIn == x.sequenceIn
  {
    if x.receiveWord then
      var e := StoreEntry(x.entryWrite, asWritten);
      var k := x.wordWrite;
      (x.(wordWrite := k + 1, receiveWord := k + 1 < payload), buf[e := buf[e][k := col]])
    else
      (x, buf)
  }

  function RxRun(x: RxSide, entryRead: int, buf: seq<seq<Column>>, cols: seq<Column>, payload: int,
                 header: (int, int) -> Column, asWritten: bool): (r: (RxSide, seq<seq<Column>>))
    requires RxInv(x, payload) && BufferShape(buf, payload)
    ensures RxInv(r.0, payload) && BufferShape(r.1, payload)
    decreases |cols|
  {
    if cols == [] then (x, buf)
    else
      var next := RxStep(x, entryRead, buf, cols[0], payload, header, asWritten);
      RxRun(next.0, entryRead, next.1, cols[1..], payload, header, asWritten)
  }

  predicate Idle(t: TxSide) {
    !t.parityPhase && !t.payloadPhase
  }

  /** The parity placeholder column. */
  function Placeholder(): Column { TypedColumn(YBlock) }

  function Placeholders(n: nat): (cs: seq<Column>)
    ensures |cs| == n && forall i :: 0 <= i < n ==> cs[i] == Placeholder()
  {
    seq(n, _ => Placeholder())
  }

  /** TransmitUnit on link 0: idle without a grant sends an idle column and
      changes nothing; idle with a grant uses one codeword of it, selects the
      read entry and advances the read cursor; the payload phase sends the
      entry's words in order and the parity phase sends placeholders. */
  function TxStep(t: TxSide, buf: seq<seq<Column>>, payload: int, parity: int): (r: (TxSide, Column))
    requires TxInv(t, payload, parity) && BufferShape(buf, payload)
    ensures TxInv(r.0, payload, parity)
    ensures Idle(t) && t.codeWordsLeft == 0 ==> r == (t, IdleColumn())
  {
    if Idle(t) && t.codeWordsLeft == 0 then (t, IdleColumn())
    else if Idle(t) then Emit(Select(t), buf, payload, parity)
    else Emit(t, buf, payload, parity)
  }

  /** Starting a granted codeword: the read entry is selected. */
  function Select(t: TxSide): (r: TxSide)
    requires Cursor(t.entryRead) && Idle(t) && t.codeWordsLeft > 0
    ensures Cursor(r.entryRead) && r.payloadPhase && !r.parityPhase && r.wordRead == 0
  {
    t.(codeWordsLeft := t.codeWordsLeft - 1, entry := t.entryRead,
       entryRead := (t.entryRead + 1) % Entries, wordRead := 0, payloadPhase := true)
  }

  /** One word of the codeword being sent: a stored word, or a placeholder. */
  function Emit(t: TxSide, buf: seq<seq<Column>>, payload: int, parity: int): (r: (TxSide, Column))
    requires TxInv(t, payload, parity) && BufferShape(buf, payload) && !Idle(t)
    ensures TxInv(r.0, payload, parity)
  {
    var k := t.wordRead + 1;
    if t.payloadPhase then
      var word := buf[t.entry][t.wordRead];
      if k >= payload
      then (t.(payloadPhase := false, parityPhase := true, wordRead := 0), word)
      else (t.(wordRead := k), word)
    else
      if k >= parity
      then (t.(wordRead := k, parityPhase := false, payloadPhase := false), Placeholder())
      else (t.(wordRead := k), Placeholder())
  }

  function TxRun(t: TxSide, buf: seq<seq<Column>>, n: nat, payload: int, parity: int): (r: (TxSide, seq<Column>))
    requires TxInv(t, payload, parity) && BufferShape(buf, payload)
    ensures TxInv(r.0, payload, parity) && |r.1| == n
    decreases n
  {
    if n == 0 then (t, [])
    else
      var step := TxStep(t, buf, payload, parity);
      var rest := TxRun(step.0, buf, n - 1, payload, parity);
      (rest.0, [step.1] + rest.1)
  }

  /** From placeholder j of the parity phase, the remaining placeholders go
      out and the stage is idle again. */
  lemma {:induction false} ParityRun(t: TxSide, buf: seq<seq<Column>>, j: nat, payload: int, parity: int)
    requires TxInv(t, payload, parity) && BufferShape(buf, payload)
    requires t.parityPhase && t.wordRead == j
    ensures TxRun(t, buf, parity - j, payload, parity)
         == (t.(parityPhase := false, wordRead := parity), Placeholders(parity - j))
    decreases parity - j
  {
    var step := TxStep(t, buf, payload, parity);
    var rest := TxRun(step.0, buf, parity - j - 1, payload, parity);
    assert TxRun(t, buf, parity - j, payload, parity) == (rest.0, [step.1] + rest.1);
    if j + 1 < parity {
      assert step == (t.(wordRead := j + 1), Placeholder());
      ParityRun(step.0, buf, j + 1, payload, parity);
      assert Placeholders(parity - j) == [Placeholder()] + Placeholders(parity - (j + 1));
    } else {
      assert step == (t.(wordRead := parity, parityPhase := false, payloadPhase := false), Placeholder());
      assert rest == TxRun(step.0, buf, 0, payload, parity) == (step.0, []);
      assert Placeholders(parity - j) == [Placeholder()] + [];
    }
  }

  /** From word j of the payload phase, the rest of the entry goes out in
      order, then the parity placeholders, and the stage is idle again. */
  lemma {:induction false} PayloadRun(t: TxSide, buf: seq<seq<Column>>, j: nat, payload: int, parity: int)
    requires TxInv(t, payload, parity) && BufferShape(buf, payload)
    requires t.payloadPhase && t.wordRead == j
    ensures TxRun(t, buf, payload - j + parity, payload, parity)
         == (t.(payloadPhase := false, wordRead := parity), buf[t.entry][j..] + Placeholders(parity))
    decreases payload - j
  {
    var step := TxStep(t, buf, payload, parity);
    var rest := TxRun(step.0, buf, payload - j + parity - 1, payload, parity);
    assert TxRun(t, buf, payload - j + parity, payload, parity) == (rest.0, [step.1] + rest.1);
    assert buf[t.entry][j..] == [buf[t.entry][j]] + buf[t.entry][j + 1..];
    if j + 1 < payload {
      assert step == (t.(wordRead := j + 1), buf[t.entry][j]);
      PayloadRun(step.0, buf, j + 1, payload, parity);
      assert rest == TxRun(step.0, buf, payload - (j + 1) + parity, payload, parity);
      assert [buf[t.entry][j]] + (buf[t.entry][j + 1..] + Placeholders(parity))
          == buf[t.entry][j..] + Placeholders(parity);
    } else {
      assert step == (t.(payloadPhase := false, parityPhase := true, wordRead := 0), buf[t.entry][j]);
      ParityRun(step.0, buf, 0, payload, parity);
      assert rest == TxRun(step.0, buf, parity - 0, payload, parity);
      assert buf[t.entry][j..] == [buf[t.entry][j]];
    }
  }

  /** One granted codeword: from idle with a grant, the next
      PAYLOAD_SIZE + PARITY_SIZE transmits send the read entry's words in
      order and then PARITY_SIZE placeholders, using one codeword of the
      grant and advancing the read cursor by one; the stage is idle again. */
  lemma TransmitCodeword(t: TxSide, buf: seq<seq<Column>>, payload: int, parity: int)
    requires TxInv(t, payload, parity) && BufferShape(buf, payload)
    requires Idle(t) && t.codeWordsLeft > 0
    ensures var r := t.entryRead;
      TxRun(t, buf, payload + parity, payload, parity)
      == (t.(codeWordsLeft := t.codeWordsLeft - 1, entry := r, entryRead := (r + 1) % Entries, wordRead := parity),
          buf[r] + Placeholders(parity))
  {
    var r := t.entryRead;
    var t0 := Select(t);
    var step := TxStep(t, buf, payload, parity);
    assert step == Emit(t0, buf, payload, parity) == TxStep(t0, buf, payload, parity);
    assert TxRun(t, buf, payload + parity, payload, parity)
        == (TxRun(step.0, buf, payload + parity - 1, payload, parity).0,
            [step.1] + TxRun(step.0, buf, payload + parity - 1, payload, parity).1);
    assert TxRun(t0, buf, payload + parity, payload, parity)
        == (TxRun(step.0, buf, payload + parity - 1, payload, parity).0,
            [step.1] + TxRun(step.0, buf, payload + parity - 1, payload, parity).1);
    PayloadRun(t0, buf, 0, payload, parity);
    assert buf[r][0..] == buf[r];
  }

  /** While a codeword is being filled from word k, the next PAYLOAD_SIZE - k
      columns become its words k.. in order and close it. */
  lemma {:induction false} FillRun(x: RxSide, entryRead: int, buf: seq<seq<Column>>, cols: seq<Column>, k: nat,
                                   payload: int, header: (int, int) -> Column)
    requires RxInv(x, payload) && BufferShape(buf, payload)
    requires x.receiveWord && x.wordWrite == k && |cols| == payload - k
    ensures var e := StoreEntry(x.entryWrite, false);
      RxRun(x, entryRead, buf, cols, payload, header, false)
      == (x.(wordWrite := payload, receiveWord := false,
             countIn := x.countIn + |cols|, sequenceIn := x.sequenceIn + CountedIn(cols)),
          buf[e := buf[e][..k] + cols])
    decreases |cols|
  {
    var e := StoreEntry(x.entryWrite, false);
    var next := RxStep(x, entryRead, buf, cols[0], payload, header, false);
    assert next.1 == buf[e := buf[e][k := cols[0]]];
    assert RxRun(x, entryRead, buf, cols, payload, header, false)
        == RxRun(next.0, entryRead, next.1, cols[1..], payload, header, false);
    if k + 1 < payload {
      FillRun(next.0, entryRead, next.1, cols[1..], k + 1, payload, header);
      assert next.1[e][..k + 1] + cols[1..] == buf[e][..k] + cols;
      assert next.1[e := next.1[e][..k + 1] + cols[1..]] == buf[e := buf[e][..k] + cols];
    } else {
      assert cols[1..] == [];
      assert buf[e][k := cols[0]] == buf[e][..k] + cols;
    }
  }

  /** A codeword fills in order: from a ready ring with no codeword being
      filled, PAYLOAD_SIZE - 1 columns make the write entry
      [header, columns...] and advance the write cursor by one. */
  lemma FillCodeword(x: RxSide, entryRead: int, buf: seq<seq<Column>>, cols: seq<Column>,
                     payload: int, header: (int, int) -> Column)
    requires RxInv(x, payload) && BufferShape(buf, payload)
    requires !x.receiveWord && Ready(x.entryWrite, entryRead) && |cols| == payload - 1
    ensures var w := x.entryWrite;
      RxRun(x, entryRead, buf, cols, payload, header, false)
      == (x.(entryWrite := (w + 1) % Entries, wordWrite := payload,
             countIn := x.countIn + |cols|, sequenceIn := x.sequenceIn + CountedIn(cols)),
          buf[w := [header(0, w)] + cols])
  {
    var w := x.entryWrite;
    var x0 := x.(entryWrite := (w + 1) % Entries, wordWrite := 1, receiveWord := true);
    var b0 := buf[w := buf[w][0 := header(0, w)]];
    assert StoreEntry(x0.entryWrite, false) == w;
    assert RxStep(x, entryRead, buf, cols[0], payload, header, false)
        == RxStep(x0, entryRead, b0, cols[0], payload, header, false);
    var next := RxStep(x, entryRead, buf, cols[0], payload, header, false);
    assert RxRun(x, entryRead, buf, cols, payload, header, false)
        == RxRun(next.0, entryRead, next.1, cols[1..], payload, header, false);
    assert RxRun(x0, entryRead, b0, cols, payload, header, false)
        == RxRun(next.0, entryRead, next.1, cols[1..], payload, header, false);
    FillRun(x0, entryRead, b0, cols, 1, payload, header);
    assert b0[w][..1] + cols == [header(0, w)] + cols;
    assert b0[w := [header(0, w)] + cols] == buf[w := [header(0, w)] + cols];
  }

  /** Channel-bonding round trip: columns gathered into a codeword in an
      empty ring come out, once granted, behind their header and ahead of
      the parity placeholders. */
  lemma CodewordRoundTrip(x: RxSide, t: TxSide, buf: seq<seq<Column>>, cols: seq<Column>,
                          payload: int, parity: int, header: (int, int) -> Column)
    requires RxInv(x, payload) && TxInv(t, payload, parity) && BufferShape(buf, payload)
    requires !x.receiveWord && Idle(t) && x.entryWrite == t.entryRead && t.codeWordsLeft > 0
    requires |cols| == payload - 1
    ensures var filled := RxRun(x, t.entryRead, buf, cols, payload, header, false).1;
      TxRun(t, filled, payload + parity, payload, parity).1
      == [header(0, x.entryWrite)] + cols + Placeholders(parity)
  {
    var w := x.entryWrite;
    FillCodeword(x, w, buf, cols, payload, header);
    var filled := RxRun(x, w, buf, cols, payload, header, false).1;
    assert filled == buf[w := [header(0, w)] + cols];
    TransmitCodeword(t, filled, payload, parity);
    assert filled[t.entryRead] == [header(0, w)] + cols;
  }

  /** As written, the first payload column of a codeword does not land in
      the codeword whose header was just written, but in word 1 of the next
      entry; the header's own word 1 keeps what it held. */
  lemma AsWrittenMisplacesWords(x: RxSide, entryRead: int, buf: seq<seq<Column>>, col: Column,
                                payload: int, header: (int, int) -> Column)
    requires RxInv(x, payload) && BufferShape(buf, payload)
    requires !x.receiveWord && AsWrittenReady(x.entryWrite, entryRead)
    ensures var w := x.entryWrite;
      var b1 := RxStep(x, entryRead, buf, col, payload, header, true).1;
      && b1[w] == buf[w][0 := header(0, w)]
      && b1[(w + 1) % Entries][1] == col
  {
  }

  /** The corrected ready test says exactly that fewer than Window codewords
      wait, for every count of codewords started (`written`) and sent
      (`sent`) that the window allows. */
  lemma ReadyCountsOutstanding(written: nat, sent: nat)
    requires sent <= written <= sent + Window
    ensures Ready(written % Entries, sent % Entries) <==> written - sent < Window
  {
    assert (written % Entries - sent % Entries) % Entries == (written - sent) % Entries;
  }

  /** As written, four waiting codewords leave the test open once the write
      cursor has wrapped past the end of the ring: with entries 4..7 waiting
      the writer may start a fifth codeword, and so go on to overwrite
      entry 4 before it is sent. */
  lemma AsWrittenWindowWraps()
    ensures AsWrittenReady(8 % Entries, 4 % Entries)
    ensures !Ready(8 % Entries, 4 % Entries)
    ensures forall w, r :: Cursor(w) && Cursor(r) && w < r ==> AsWrittenReady(w, r)
  {
  }

  /** fsm_ngepon_rs_tx_t. The per-link index arrays and the buffer are the
      source's fixed-size arrays; the buffer's codeword header is built by
      `header(link, entry)`. The transfer flags and the selected entry are
      shared by every link, as in the source; only link 0 is ever written or
      sent, and `buffer` is link 0's slice of the buffer. */
  class RsTx {
    const payloadSize: int
    const paritySize: int
    const header: (int, int) -> Column
    const entryWriteIndex: array<int>
    const entryReadIndex: array<int>
    const wordWriteIndex: array<int>
    const wordReadIndex: array<int>
    const codeWordsLeft: array<int>
    var inStateTransferParityPlaceholder: bool
    var inStateTransferPayloadWord: bool
    var inStateReceiveWord: bool
    const txDataCtrl: array3<Column>
    var txDataCtrlEntry: int
    var blockSequenceIn: int
    var blockCountIn: int
    ghost var buffer: seq<seq<Column>>

    /** The arrays have the source's sizes and are distinct objects. */
    predicate Shape()
      reads this
    {
      && entryWriteIndex.Length == Links && entryReadIndex.Length == Links
      && wordWriteIndex.Length == Links && wordReadIndex.Length == Links
      && codeWordsLeft.Length == Links
      && txDataCtrl.Length0 == Links && txDataCtrl.Length1 == Entries
      && txDataCtrl.Length2 == payloadSize
      && entryWriteIndex != entryReadIndex && entryWriteIndex != wordWriteIndex
      && entryWriteIndex != wordReadIndex && entryWriteIndex != codeWordsLeft
      && entryReadIndex != wordWriteIndex && entryReadIndex != wordReadIndex
      && entryReadIndex != codeWordsLeft && wordWriteIndex != wordReadIndex
      && wordWriteIndex != codeWordsLeft && wordReadIndex != codeWordsLeft
    }

    /** The input process's state on link 0. */
    function RxState(): RxSide
      requires Shape()
      reads this, entryWriteIndex, wordWriteIndex
    {
      RxSide(entryWriteIndex[0], wordWriteIndex[0], inStateReceiveWord, blockSequenceIn, blockCountIn)
    }

    /** The output process's state on link 0. */
    function TxState(): TxSide
      requires Shape()
      reads this, entryReadIndex, wordReadIndex, codeWordsLeft
    {
      TxSide(entryReadIndex[0], wordReadIndex[0], codeWordsLeft[0],
             inStateTransferParityPlaceholder, inStateTransferPayloadWord, txDataCtrlEntry)
    }

    /** Link 0's slice of the array is `buffer`. */
    ghost predicate Mirrors()
      requires Shape()
      reads this, txDataCtrl
    {
      && BufferShape(buffer, payloadSize)
      && forall e, k :: 0 <= e < Entries && 0 <= k < payloadSize ==> txDataCtrl[0, e, k] == buffer[e][k]
    }

    /** Every link's ring cursors stay 3-bit and its grant non-negative;
        link 0's two processes keep their invariants. */
    ghost predicate Valid()
      reads this, entryWriteIndex, entryReadIndex, wordWriteIndex, wordReadIndex, codeWordsLeft, txDataCtrl
    {
      && Shape()
      && (forall l :: 0 <= l < Links ==> Cursor(entryWriteIndex[l]) && Cursor(entryReadIndex[l]))
      && (forall l :: 0 <= l < Links ==> codeWordsLeft[l] >= 0)
      && RxInv(RxState(), payloadSize)
      && TxInv(TxState(), payloadSize, paritySize)
      && Mirrors()
    }

    constructor (payloadSize: int, paritySize: int, header: (int, int) -> Column)
      requires payloadSize >= 2 && paritySize >= 1
      ensures Valid()
      ensures this.payloadSize == payloadSize && this.paritySize == paritySize && this.header == header
      ensures RxState() == InitialRx() && TxState() == InitialTx()
      ensures buffer == InitialBuffer(payloadSize)
      ensures forall l :: 0 <= l < Links ==> codeWordsLeft[l] == 0 && entryWriteIndex[l] == entryReadIndex[l] == 0
    {
      this.payloadSize := payloadSize;
      this.paritySize := paritySize;
      this.header := header;
      var ew := Zeroed();
      var er := Zeroed();
      var ww := Zeroed();
      var wr := Zeroed();
      var cw := Zeroed();
      var data := ClearedBuffer(payloadSize);
      entryWriteIndex, entryReadIndex, wordWriteIndex, wordReadIndex, codeWordsLeft := ew, er, ww, wr, cw;
      txDataCtrl := data;
      inStateTransferParityPlaceholder := false;
      inStateTransferPayloadWord := false;
      inStateReceiveWord := false;
      txDataCtrlEntry := 0;
      blockSequenceIn := 0;
      blockCountIn := 0;
      buffer := InitialBuffer(payloadSize);
    }

    /** CbCtrlRequest: a grant on any link is extended, never truncated. */
    method CbCtrlRequest(link: int, count: int)
      requires Valid() && 0 <= link < Links && count >= 0
      modifies codeWordsLeft
      ensures Valid()
      ensures codeWordsLeft[link] == Grant(old(codeWordsLeft[link]), count)
      ensures forall l :: 0 <= l < Links && l != link ==> codeWordsLeft[l] == old(codeWordsLeft[l])
    {
      if count < codeWordsLeft[link] {
        return;
      }
      codeWordsLeft[link] := count;
    }

    /** IsReadyForMoreData, with the window test taken modulo the ring. */
    method IsReadyForMoreData(link: int) returns (ready: bool)
      requires Valid() && 0 <= link < Links
      ensures ready == Ready(entryWriteIndex[link], entryReadIndex[link])
    {
      ready := (entryWriteIndex[link] - entryReadIndex[link]) % Entries < Window;
    }

    /** One store into link 0's buffer. */
    method Store(e: int, k: int, c: Column)
      requires Shape() && Mirrors() && 0 <= e < Entries && 0 <= k < payloadSize
      modifies this`buffer, txDataCtrl
      ensures Mirrors() && buffer == old(buffer)[e := old(buffer)[e][k := c]]
      ensures forall l, j, i :: 1 <= l < Links && 0 <= j < Entries && 0 <= i < payloadSize
                ==> txDataCtrl[l, j, i] == old(txDataCtrl[l, j, i])
    {
      txDataCtrl[0, e, k] := c;
      buffer := buffer[e := buffer[e][k := c]];
    }

    /** INITIATE_CODEWORD_RX (see RxStart), corrected: the window test takes
        the cursor difference modulo 8 (## Findings row 3 of the README). */
    method StartCodeword()
      requires Valid()
      modifies this`buffer, this`inStateReceiveWord, entryWriteIndex, wordWriteIndex, txDataCtrl
      ensures Valid()
      ensures (RxState(), buffer) == RxStart(old(RxState()), entryReadIndex[0], old(buffer), payloadSize, header, false)
      ensures forall l :: 1 <= l < Links ==> entryWriteIndex[l] == old(entryWriteIndex[l])
      ensures forall l, j, i :: 1 <= l < Links && 0 <= j < Entries && 0 <= i < payloadSize
                ==> txDataCtrl[l, j, i] == old(txDataCtrl[l, j, i])
    {
      var w := entryWriteIndex[0];
      if (w - entryReadIndex[0]) % Entries < Window && !inStateReceiveWord {
        Store(w, 0, header(0, w));
        entryWriteIndex[0] := if w + 1 == Entries then 0 else w + 1;
        wordWriteIndex[0] := 1;
        inStateReceiveWord := true;
      }
    }

    /** RECEIVE_WORD (see RxStore), corrected: the word goes into the entry
        whose header was just written, the one before the advanced write
        cursor (## Findings row 2 of the README). */
    method ReceiveWord(frame: Column)
      requires Valid()
      modifies this`buffer, this`inStateReceiveWord, wordWriteIndex, txDataCtrl
      ensures Valid()
      ensures (RxState(), buffer) == RxStore(old(RxState()), old(buffer), frame, payloadSize, false)
      ensures forall l, j, i :: 1 <= l < Links && 0 <= j < Entries && 0 <= i < payloadSize
                ==> txDataCtrl[l, j, i] == old(txDataCtrl[l, j, i])
    {
      if inStateReceiveWord {
        var e := (entryWriteIndex[0] + Entries - 1) % Entries;
        Store(e, wordWriteIndex[0], frame);
        wordWriteIndex[0] := wordWriteIndex[0] + 1;
        inStateReceiveWord := wordWriteIndex[0] < payloadSize;
      }
    }

    /** ReceiveUnit on link 0 (see RxStep), in its corrected form: the
        modulo-8 window and the header's entry for payload words (## Findings
        rows 2 and 3 of the README). */
    method ReceiveUnit(frame: Column)
      requires Valid()
      modifies this, entryWriteIndex, wordWriteIndex, txDataCtrl
      ensures Valid()
      ensures (RxState(), buffer)
           == RxStep(old(RxState()), entryReadIndex[0], old(buffer), frame, payloadSize, header, false)
      ensures TxState() == old(TxState())
      ensures forall l :: 1 <= l < Links ==> entryWriteIndex[l] == old(entryWriteIndex[l])
      ensures forall l, j, i :: 1 <= l < Links && 0 <= j < Entries && 0 <= i < payloadSize
                ==> txDataCtrl[l, j, i] == old(txDataCtrl[l, j, i])
    {
      StartCodeword();
      ghost var started := (RxState(), buffer);
      CountColumn(frame);
      ReceiveWord(frame);
      assert (RxState(), buffer) == RxStore(RxCount(started.0, frame), started.1, frame, payloadSize, false);
    }

    /** The two input counters (see RxCount). */
    method CountColumn(frame: Column)
      requires Valid()
      modifies this`blockCountIn, this`blockSequenceIn
      ensures Valid() && RxState() == RxCount(old(RxState()), frame)
    {
      blockCountIn := blockCountIn + 1;
      if Counted(frame) {
        blockSequenceIn := blockSequenceIn + 1;
      }
    }

    /** SELECT_BUFFER_ENTRY (see Select). */
    method SelectBufferEntry()
      requires Valid() && Idle(TxState()) && codeWordsLeft[0] > 0
      modifies this`txDataCtrlEntry, this`inStateTransferPayloadWord, entryReadIndex, wordReadIndex, codeWordsLeft
      ensures Valid() && TxState() == Select(old(TxState()))
      ensures forall l :: 1 <= l < Links ==> entryReadIndex[l] == old(entryReadIndex[l]) && codeWordsLeft[l] == old(codeWordsLeft[l])
    {
      codeWordsLeft[0] := codeWordsLeft[0] - 1;
      txDataCtrlEntry := entryReadIndex[0];
      entryReadIndex[0] := if entryReadIndex[0] + 1 >= Entries then 0 else entryReadIndex[0] + 1;
      wordReadIndex[0] := 0;
      inStateTransferPayloadWord := true;
    }

    /** TRANSFER_PAYLOAD_WORD and TRANSFER_PARITY_PLACEHOLDER (see Emit). */
    method TransferWord() returns (c: Column)
      requires Valid() && !Idle(TxState())
      modifies this`inStateTransferPayloadWord, this`inStateTransferParityPlaceholder, wordReadIndex
      ensures Valid() && (TxState(), c) == Emit(old(TxState()), buffer, payloadSize, paritySize)
    {
      if inStateTransferPayloadWord {
        c := txDataCtrl[0, txDataCtrlEntry, wordReadIndex[0]];
        wordReadIndex[0] := wordReadIndex[0] + 1;
        if wordReadIndex[0] >= payloadSize {
          inStateTransferPayloadWord := false;
          inStateTransferParityPlaceholder := true;
          wordReadIndex[0] := 0;
        }
        return;
      }
      wordReadIndex[0] := wordReadIndex[0] + 1;
      if wordReadIndex[0] >= paritySize {
        inStateTransferParityPlaceholder := false;
        inStateTransferPayloadWord := false;
      }
      c := Placeholder();
    }

    /** TransmitUnit on link 0 (see TxStep). */
    method TransmitUnit() returns (c: Column)
      requires Valid()
      modifies this, entryReadIndex, wordReadIndex, codeWordsLeft
      ensures Valid()
      ensures (TxState(), c) == TxStep(old(TxState()), buffer, payloadSize, paritySize)
      ensures RxState() == old(RxState()) && buffer == old(buffer)
      ensures forall l :: 1 <= l < Links ==> entryReadIndex[l] == old(entryReadIndex[l]) && codeWordsLeft[l] == old(codeWordsLeft[l])
    {
      if !inStateTransferParityPlaceholder && !inStateTransferPayloadWord {
        if codeWordsLeft[0] == 0 {
          return IdleColumn();
        }
        SelectBufferEntry();
      }
      c := TransferWord();
    }
  }

  /** The constructor's index initialisation: one zero per link. */
  method Zeroed() returns (a: array<int>)
    ensures fresh(a) && a.Length == Links
    ensures forall l :: 0 <= l < Links ==> a[l] == 0
  {
    a := new int[Links];
    var l := 0;
    while l < Links
      invariant 0 <= l <= Links
      invariant forall j :: 0 <= j < l ==> a[j] == 0
    {
      a[l] := 0;
      l := l + 1;
    }
  }

  /** The constructor's buffer initialisation: every word of every entry of
      every link a default (idle) column. */
  method ClearedBuffer(payloadSize: int) returns (data: array3<Column>)
    requires payloadSize >= 0
    ensures fresh(data)
    ensures data.Length0 == Links && data.Length1 == Entries && data.Length2 == payloadSize
    ensures forall i, j, k :: 0 <= i < Links && 0 <= j < Entries && 0 <= k < payloadSize ==> data[i, j, k] == IdleColumn()
  {
    data := new Column[Links, Entries, payloadSize];
    var a := 0;
    while a < Links
      invariant 0 <= a <= Links
      invariant forall i, j, k :: 0 <= i < a && 0 <= j < Entries && 0 <= k < payloadSize ==> data[i, j, k] == IdleColumn()
    {
      var b := 0;
      while b < Entries
        invariant 0 <= b <= Entries
        invariant forall i, j, k :: 0 <= i < a && 0 <= j < Entries && 0 <= k < payloadSize ==> data[i, j, k] == IdleColumn()
        invariant forall j, k :: 0 <= j < b && 0 <= k < payloadSize ==> data[a, j, k] == IdleColumn()
      {
        var c := 0;
        while c < payloadSize
          invariant 0 <= c <= payloadSize
          invariant forall i, j, k :: 0 <= i < a && 0 <= j < Entries && 0 <= k < payloadSize ==> data[i, j, k] == IdleColumn()
          invariant forall j, k :: 0 <= j < b && 0 <= k < payloadSize ==> data[a, j, k] == IdleColumn()
          invariant forall k :: 0 <= k < c ==> data[a, b, k] == IdleColumn()
        {
          data[a, b, c] := IdleColumn();
          c := c + 1;
        }
        b := b + 1;
      }
      a := a + 1;
    }
  }
}
