/** The simulated serial port: a transmitter that shifts console bytes onto the line and a receiver
    that samples a line, both called once per clock, here with the line looped back. */
module Uart {
  import opened Arith
  import opened Wrappers

  datatype Phase = Idle | StartBit | Bits | StopBit | Error

  type Byte = b: nat | b < 256
  type Level = b: nat | b < 2

  const RX_INTERVAL := 10000

  function BitOf(c: nat, k: nat): Level { c / Pow2(k) % 2 }

  /** A transition is an error unless it is close to the start or the end of a bit. */
  predicate IsError(count: nat, width: nat)
    requires width > 0
  {
    var e := count as real / width as real;
    e <= 1.0 - 0.05 && e >= 0.05
  }

  /** The bits sampled so far, least significant first. */
  lemma SampleBit(c: nat, k: nat, byte: nat)
    requires byte == c % Pow2(k)
    ensures Or(byte, BitOf(c, k) * Pow2(k)) == c % Pow2(k + 1)
  {
    hide Or;
    NextBit(c, Pow2(k));
    OrSwap(byte, BitOf(c, k) * Pow2(k));
    OrApart(BitOf(c, k), byte, k);
  }

  // ---------------------------------------------------------------- the two machines

  /** Receiver: phase, clocks left in the bit, bits and byte gathered, last level. */
  datatype Tx = Tx(state: Phase, count: nat, bits: nat, byte: nat, prev: Level)

  /** Transmitter: phase, byte, clocks left in the bit, bit number, line level, polling divider. */
  datatype Rx = Rx(state: Phase, data: Byte, count: nat, bit: nat, line: Level, sometimes: nat)

  /** Counting down in an unsigned long. */
  function Less(n: nat): nat { if n == 0 then 0xffff_ffff_ffff_ffff else n - 1 }

  predicate Polls(r: Rx) { r.state.Idle? && r.sometimes >= RX_INTERVAL }

  function NextRx(w: nat, r: Rx, c: Option<Byte>): Rx {
    var ends := Less(r.count) == 0;
    match r.state
    case Idle =>
      if !Polls(r) then r.(sometimes := r.sometimes + 1)
      else if c.Some? then Rx(StartBit, c.value, w, 0, 0, 0)
      else r.(sometimes := 0)
    case StartBit =>
      if ends then r.(state := Bits, count := w, line := BitOf(r.data, 0)) else r.(count := Less(r.count))
    case Bits =>
      if !ends then r.(count := Less(r.count))
      else if r.bit + 1 == 8 then r.(state := StopBit, count := w, bit := 8, line := 1)
      else r.(count := w, bit := r.bit + 1, line := BitOf(r.data, r.bit + 1))
    case StopBit => if ends then r.(state := Idle, count := 0) else r.(count := Less(r.count))
    case Error => r
  }

  /** A transition at this clock is out of place. */
  predicate Misplaced(w: nat, t: Tx, tx: Level)
    requires w > 0
  {
    && IsError(Less(t.count), w)
    && match t.state
       case StartBit => tx == 1
       case Bits => tx != t.prev
       case StopBit => tx == 0
       case _ => false
  }

  function Sampled(w: nat, t: Tx, tx: Level): Tx {
    if Less(t.count) == w / 2 then t.(byte := Or(t.byte, tx * Pow2(t.bits)), bits := t.bits + 1) else t
  }

  function NextTx(w: nat, t: Tx, tx: Level): Tx
    requires w > 0
  {
    var left := Less(t.count);
    var t1 :=
      if t.state.Idle? then (if tx == 0 then Tx(StartBit, w, 0, 0, t.prev) else t)
      else if Misplaced(w, t, tx) then
        (if t.state.Bits? then Sampled(w, t, tx) else t).(state := Error, count := w * 2)
      else match t.state
        case StartBit => if left == 0 then t.(state := Bits, count := w) else t.(count := left)
        case Bits =>
          var s := Sampled(w, t, tx);
          if left != 0 then s.(count := left) else s.(state := if s.bits == 8 then StopBit else Bits, count := w)
        case StopBit => t.(count := left, state := if tx == 0 || left == 0 then Idle else StopBit)
        case _ => t.(count := left, state := if left == 0 then Idle else Error);
    t1.(prev := tx)
  }

  /** Bytes written at this clock; the byte goes out twice when the line falls with the last clock. */
  function WrittenAt(w: nat, t: Tx, tx: Level): seq<nat>
    requires w > 0
  {
    if !t.state.StopBit? || Misplaced(w, t, tx) then []
    else (if tx == 0 then [t.byte] else []) + if Less(t.count) == 0 then [t.byte] else []
  }

  // ---------------------------------------------------------------- looped back

  /** The receiver follows the transmitter clock for clock. */
  ghost predicate Following(w: nat, r: Rx, t: Tx) {
    && t.state == r.state && !t.state.Error?
    && (!t.state.Idle? ==> t.prev == r.line && t.count == r.count && 0 < t.count <= w)
  }

  /** What the receiver has gathered of the byte on the line. */
  ghost predicate Gathered(w: nat, r: Rx, t: Tx) {
    match t.state
    case Idle => r.line == 1
    case StartBit => r.line == 0 && r.bit == 0 && t.bits == 0 && t.byte == 0
    case Bits =>
      && r.bit < 8 && r.line == BitOf(r.data, r.bit)
      && t.bits == (if t.count <= w / 2 then r.bit + 1 else r.bit) && t.byte == r.data % Pow2(t.bits)
    case StopBit => r.line == 1 && t.byte == r.data
    case Error => false
  }

  function TakenAt(r: Rx, c: Option<Byte>): seq<nat> { if Polls(r) && c.Some? then [c.value] else [] }

  /** The byte on its way. */
  function OnLine(r: Rx): seq<nat> { if r.state.Idle? then [] else [r.data] }

  lemma WholeByte(c: Byte)
    ensures c % Pow2(8) == c
  {
    Pow2Eight(0);
  }

  lemma Ratio(c: real, r: real, t: real)
    requires r > 0.0
    ensures c / r >= t <==> c >= t * r
    ensures c / r <= t <==> c <= t * r
  {
    var e := c / r;
    assert e * r == c;
    if e > t { assert (e - t) * r > 0.0; }
    if e < t { assert (t - e) * r > 0.0; }
  }

  lemma Scaled(count: nat, w: nat)
    ensures 0.05 * w as real <= count as real <==> w <= 20 * count
    ensures count as real <= 0.95 * w as real <==> 20 * count <= 19 * w
  {
    assert (20 * count) as real == 20.0 * count as real && (19 * w) as real == 19.0 * w as real;
  }

  /** The error zone of a bit: from one twentieth to nineteen twentieths of it, ends included. */
  lemma ErrorZone(count: nat, w: nat)
    requires w > 0
    ensures IsError(count, w) <==> w <= 20 * count <= 19 * w
  {
    Ratio(count as real, w as real, 0.05);
    Ratio(count as real, w as real, 0.95);
    Scaled(count, w);
  }

  /** A transition as a bit ends is never an error. */
  lemma EdgeIsFine(w: nat)
    requires w > 0
    ensures !IsError(0, w)
  {
    ErrorZone(0, w);
  }

  lemma BitsStep(w: nat, r: Rx, t: Tx)
    requires w >= 2 && Following(w, r, t) && Gathered(w, r, t) && t.state.Bits?
    ensures var r' := NextRx(w, r, None);
      Following(w, r', NextTx(w, t, r'.line)) && Gathered(w, r', NextTx(w, t, r'.line))
  {
    hide BitOf, Or, Pow2;
    SampleBit(r.data, r.bit, r.data % Pow2(r.bit));
    WholeByte(r.data);
    EdgeIsFine(w);
  }

  /** One clock of both keeps them in step: no error, and a byte is written exactly when it has left
      the line. */
  lemma LoopStep(w: nat, r: Rx, t: Tx, c: Option<Byte>)
    requires w >= 2 && Following(w, r, t) && Gathered(w, r, t)
    ensures var r' := NextRx(w, r, c);
      && Following(w, r', NextTx(w, t, r'.line)) && Gathered(w, r', NextTx(w, t, r'.line))
      && OnLine(r) + TakenAt(r, c) == WrittenAt(w, t, r'.line) + OnLine(r')
  {
    if t.state.Bits? { BitsStep(w, r, t); }
  }

  /** Clocks until the byte on the line has left it: a start bit, eight bits and a stop bit. */
  function Remaining(w: nat, r: Rx): int {
    match r.state
    case StartBit => r.count + 9 * w
    case Bits => r.count + (8 - r.bit) * w
    case StopBit => r.count
    case _ => 0
  }

  lemma RemainingStep(w: nat, r: Rx)
    requires w > 0 && r.count > 0 && !r.state.Idle? && !r.state.Error?
    requires (r.state.StartBit? ==> r.bit == 0) && (r.state.Bits? ==> r.bit < 8)
    ensures Remaining(w, NextRx(w, r, None)) == Remaining(w, r) - 1
  {
    if r.state.Bits? {
      assert (8 - r.bit) * w == (8 - (r.bit + 1)) * w + w;
    } else if r.state.StartBit? {
      assert (8 - r.bit) * w == 8 * w;
    }
  }

  /** Both machines with their static variables, and the bytes taken from and written to the console. */
  class Port {
    const width: nat
    var txState: Phase
    var txCount: nat
    var txBits: nat
    var txByte: nat
    var txPrev: Level
    var rxState: Phase
    var rxData: Byte
    var rxCount: nat
    var rxBit: nat
    var rx: Level
    var rxSometimes: nat
    var taken: seq<nat>
    var written: seq<nat>

    ghost function TxView(): Tx reads this { Tx(txState, txCount, txBits, txByte, txPrev) }
    ghost function RxView(): Rx reads this { Rx(rxState, rxData, rxCount, rxBit, rx, rxSometimes) }

    /** In step, and everything taken has been written except the byte on the line. */
    ghost predicate Valid() reads this {
      && width >= 2 && Following(width, RxView(), TxView()) && Gathered(width, RxView(), TxView())
      && taken == written + OnLine(RxView())
    }

    constructor (width: nat)
      requires width >= 2
      ensures Valid() && this.width == width && taken == [] && written == []
    {
      this.width := width;
      txState, txCount, txBits, txByte, txPrev := Idle, 0, 0, 0, 0;
      rxState, rxData, rxCount, rxBit, rx, rxSometimes := Idle, 0, 0, 0, 1, 0;
      taken, written := [], [];
    }

    /** The transmitter; `c` is what the console has to offer if it is polled. */
    method UartRx(c: Option<Byte>) returns (line: Level)
      modifies `rxState, `rxData, `rxCount, `rxBit, `rx, `rxSometimes, `taken
      ensures RxView() == NextRx(width, old(RxView()), c) && line == rx
      ensures taken == old(taken) + TakenAt(old(RxView()), c)
    {
      match rxState {
        case Idle =>
          var polls := rxSometimes >= RX_INTERVAL;
          rxSometimes := rxSometimes + 1;
          if polls {
            rxSometimes := 0;
            if c.Some? {
              taken := taken + [c.value];
              rxState, rxData, rxCount, rxBit, rx := StartBit, c.value, width, 0, 0;
            }
          }
        case StartBit =>
          rxCount := Less(rxCount);
          if rxCount == 0 { rxState, rxCount, rx := Bits, width, BitOf(rxData, 0); }
        case Bits =>
          rxCount := Less(rxCount);
          if rxCount == 0 {
            rxBit := rxBit + 1;
            if rxBit == 8 { rx, rxState := 1, StopBit; } else { rx := BitOf(rxData, rxBit); }
            rxCount := width;
          }
        case StopBit =>
          rxCount := Less(rxCount);
          if rxCount == 0 { rxState := Idle; }
        case Error =>
      }
      line := rx;
    }

    /** Sample in the middle of a bit, then judge the level. */
    method TakeBit(tx: Level)
      requires width > 0 && txState.Bits?
      modifies `txState, `txCount, `txBits, `txByte
      ensures TxView().(prev := tx) == NextTx(width, old(TxView()), tx)
    {
      txCount := Less(txCount);
      if txCount == width / 2 {
        txByte := Or(txByte, tx * Pow2(txBits));
        txBits := txBits + 1;
      }
      if tx != txPrev && IsError(txCount, width) {
        txCount, txState := width * 2, Error;
        return;
      }
      if txCount == 0 {
        if txBits == 8 { txState := StopBit; }
        txCount := width;
      }
    }

    /** The receiver. */
    method UartTx(tx: Level)
      requires width > 0
      modifies `txState, `txCount, `txBits, `txByte, `txPrev, `written
      ensures TxView() == NextTx(width, old(TxView()), tx)
      ensures written == old(written) + WrittenAt(width, old(TxView()), tx)
    {
      match txState {
        case Idle =>
          if tx == 0 { txState, txCount, txBits, txByte := StartBit, width, 0, 0; }
        case StartBit =>
          txCount := Less(txCount);
          if tx == 1 && IsError(txCount, width) {
            txCount, txState := width * 2, Error;
          } else if txCount == 0 {
            txState, txCount := Bits, width;
          }
        case Bits => TakeBit(tx);
        case StopBit =>
          txCount := Less(txCount);
          if tx == 0 && IsError(txCount, width) {
            txCount, txState := width * 2, Error;
          } else {
            if tx == 0 { written := written + [txByte]; txState := Idle; }
            if txCount == 0 { written := written + [txByte]; txState := Idle; }
          }
        case Error =>
          txCount := Less(txCount);
          if txCount == 0 { txState := Idle; }
      }
      txPrev := tx;
    }

    /** One clock with the line looped back. */
    method Clock(c: Option<Byte>)
      requires Valid()
      modifies this
      ensures Valid() && taken == old(taken) + TakenAt(old(RxView()), c)
      ensures RxView() == NextRx(width, old(RxView()), c)
    {
      LoopStep(width, RxView(), TxView(), c);
      hide Following, Gathered, NextRx, NextTx, WrittenAt;
      var line := UartRx(c);
      UartTx(line);
    }

    /** For any console input, the bytes written are the bytes taken, in order, up to the one on the
        line, and the receiver never finds an error. */
    method Run(input: seq<Option<Byte>>)
      requires Valid() && taken == written == []
      modifies this
      ensures Valid() && !txState.Error?
      ensures written <= taken && |taken| <= |written| + 1 && (rxState.Idle? ==> written == taken)
    {
      for k := 0 to |input|
        invariant Valid()
      {
        Clock(input[k]);
      }
    }

    /** Once the console has nothing more to say, the byte on the line arrives, at the last clock of its
        stop bit. */
    method Drain() returns (clocks: nat)
      requires Valid()
      modifies this
      ensures Valid() && rxState.Idle? && written == taken == old(taken)
      ensures clocks == Remaining(width, old(RxView()))
    {
      clocks := 0;
      while !rxState.Idle?
        invariant Valid() && taken == old(taken) && clocks + Remaining(width, RxView()) == Remaining(width, old(RxView()))
        decreases Rank(rxState), 8 - rxBit, rxCount
      {
        RemainingStep(width, RxView());
        Clock(None);
        clocks := clocks + 1;
      }
    }

    /** An idle port that is offered a byte takes it at its next poll. */
    method Offer(c: Byte) returns (clocks: nat)
      requires Valid() && rxState.Idle?
      modifies this
      ensures Valid() && taken == old(taken) + [c] && RxView() == Rx(StartBit, c, width, 0, 0, 0)
      ensures clocks == (if old(rxSometimes) < 10000 then 10000 - old(rxSometimes) else 0) + 1
    {
      clocks := 0;
      while rxState.Idle?
        invariant Valid() && if rxState.Idle? then Untaken(old(rxSometimes), clocks) && taken == old(taken)
                             else taken == old(taken) + [c] && RxView() == Rx(StartBit, c, width, 0, 0, 0)
        invariant !rxState.Idle? ==> clocks == (if old(rxSometimes) < 10000 then 10000 - old(rxSometimes) else 0) + 1
        decreases rxState.Idle?, 10000 - rxSometimes
      {
        Clock(Some(c));
        clocks := clocks + 1;
      }
    }

    ghost predicate Untaken(since: nat, clocks: nat) reads this {
      rxSometimes == since + clocks && (clocks > 0 ==> rxSometimes <= 10000)
    }

    /** A byte offered to an idle port comes out as it went in, ten bit times after it was taken. */
    method Send(c: Byte) returns (clocks: nat)
      requires Valid() && rxState.Idle?
      modifies this
      ensures Valid() && rxState.Idle? && written == old(written) + [c]
      ensures clocks == (if old(rxSometimes) < 10000 then 10000 - old(rxSometimes) else 0) + 1 + 10 * width
    {
      clocks := Offer(c);
      var more := Drain();
      clocks := clocks + more;
    }
  }

  function Rank(p: Phase): nat {
    match p
    case StartBit => 3
    case Bits => 2
    case StopBit => 1
    case _ => 0
  }
}
