/** The JTAG to DMI transport: a request register in the JTAG clock domain, two-flop synchronisers
    both ways, and a four-phase handshake with a slave in the system clock domain.  The two clocks
    and the slave move in any order. */
module DmiTransport {

  type Bits = seq<bool>

  /** Address and data width. */
  datatype Widths = Widths(abits: nat, dbits: nat) {
    function Length(): nat { abits + dbits + 2 }
  }

  const RD: Bits := [true, false]
  const WR: Bits := [false, true]
  const NOP: Bits := [false, false]
  const OK: Bits := [false, false]
  const BSY: Bits := [true, true]

  /** Registers of the transport, bit 0 first in `shiftr` and `request`: operation, data, address. */
  datatype Dtm = Dtm(shiftr: Bits, request: Bits, jtagReq: bool, req0: bool, req1: bool, ack0: bool, ack1: bool)

  /** What the slave drives. */
  datatype Slave = Slave(ack: bool, din: Bits)

  /** Pins of the TAP at a rising edge of the JTAG clock. */
  datatype Pins = Pins(sel: bool, capture: bool, shift: bool, update: bool, tdi: bool) {
    /** The TAP controller is in at most one of its states. */
    predicate Ok() { !(capture && shift) && !(capture && update) && !(shift && update) }
  }

  predicate Sized(w: Widths, d: Dtm) { |d.shiftr| == w.Length() && |d.request| == w.Length() }

  function OpOf(r: Bits): Bits
    requires |r| >= 2
  { r[..2] }

  function DataOf(w: Widths, r: Bits): Bits
    requires |r| == w.Length()
  { r[2..2 + w.dbits] }

  function AddrOf(w: Widths, r: Bits): Bits
    requires |r| == w.Length()
  { r[2 + w.dbits..] }

  /** The number on the two operation or status lines. */
  function CodeOf(op: Bits): nat
    requires |op| == 2
  { (if op[0] then 1 else 0) + if op[1] then 2 else 0 }

  /** The host's numbers for operations and answers, and its 74-bit register of eight address bits, 64
      data bits and an operation. */
  lemma HostLayout(r: Bits)
    requires |r| == 74
    ensures CodeOf(NOP) == 0 && CodeOf(RD) == 1 && CodeOf(WR) == 2 && CodeOf(OK) == 0 && CodeOf(BSY) == 3
    ensures var w := Widths(8, 64);
      w.Length() == 74 && OpOf(r) == r[0..2] && DataOf(w, r) == r[2..66] && AddrOf(w, r) == r[66..74]
  {}

  predicate OpValid(op: Bits) { op == RD || op == WR }
  predicate Busy(d: Dtm) { d.jtagReq || d.ack1 }

  /** A command is latched at this JTAG clock edge. */
  predicate Accepts(d: Dtm, p: Pins)
    requires |d.shiftr| >= 2
  { p.sel && p.update && OpValid(OpOf(d.shiftr)) && !Busy(d) }

  /** The request flag is dropped at this JTAG clock edge. */
  predicate Finishes(d: Dtm, p: Pins) { p.sel && d.jtagReq && d.ack1 }

  function NextShiftr(w: Widths, d: Dtm, p: Pins): Bits
    requires Sized(w, d)
  {
    if !p.sel then d.shiftr
    else if p.capture then (if Busy(d) then BSY else OK) + d.request[2..]
    else if p.update && OpValid(OpOf(d.shiftr)) then BSY + d.shiftr[2..]
    else if p.shift then d.shiftr[1..] + [p.tdi]
    else d.shiftr
  }

  function NextRequest(w: Widths, d: Dtm, p: Pins, din: Bits): Bits
    requires Sized(w, d)
  {
    if Accepts(d, p) then d.shiftr
    else if Finishes(d, p) && OpOf(d.request) == RD && |din| == w.dbits
    then OpOf(d.request) + din + AddrOf(w, d.request)
    else d.request
  }

  function TckStep(w: Widths, d: Dtm, p: Pins, s: Slave): Dtm
    requires Sized(w, d)
  {
    Dtm(NextShiftr(w, d, p), NextRequest(w, d, p, s.din),
        (d.jtagReq || Accepts(d, p)) && !Finishes(d, p), d.req0, d.req1, s.ack, d.ack0)
  }

  function SysStep(d: Dtm): Dtm { d.(req0 := d.jtagReq, req1 := d.req0) }

  /** The slave raises its acknowledge only while it is requested and keeps it until the request
      drops. */
  predicate AckOk(d: Dtm, ack: bool, ack': bool) { (ack' && !ack ==> d.req1) && (ack && d.req1 ==> ack') }

  /** And it keeps its data as long. */
  predicate SlaveOk(w: Widths, d: Dtm, s: Slave, s': Slave) {
    |s'.din| == w.dbits && AckOk(d, s.ack, s'.ack) && (s.ack && d.req1 ==> s' == s)
  }

  // ---------------------------------------------------------------- the ring of flags

  predicate Falls(a: bool, b: bool) { b ==> a }

  /** Ones followed by zeros. */
  predicate Rising(d: Dtm, ack: bool) {
    Falls(d.jtagReq, d.req0) && Falls(d.req0, d.req1) && Falls(d.req1, ack) && Falls(ack, d.ack0) && Falls(d.ack0, d.ack1)
  }

  /** Zeros followed by ones. */
  predicate Falling(d: Dtm, ack: bool) {
    Falls(d.req0, d.jtagReq) && Falls(d.req1, d.req0) && Falls(ack, d.req1) && Falls(d.ack0, ack) && Falls(d.ack1, d.ack0)
  }

  /** The six flags carry a single wavefront. */
  predicate Wave(d: Dtm, ack: bool) { Rising(d, ack) || Falling(d, ack) }

  predicate Quiet(d: Dtm, ack: bool) { !d.jtagReq && !d.req0 && !d.req1 && !ack && !d.ack0 && !d.ack1 }

  /** Not busy means that all six flags are down. */
  lemma NotBusyIsQuiet(d: Dtm, ack: bool)
    requires Wave(d, ack)
    ensures Busy(d) <==> !Quiet(d, ack)
  {}

  lemma WaveTck(w: Widths, d: Dtm, p: Pins, s: Slave)
    requires Sized(w, d) && Wave(d, s.ack)
    ensures Sized(w, TckStep(w, d, p, s)) && Wave(TckStep(w, d, p, s), s.ack)
    ensures Accepts(d, p) ==> Quiet(d, s.ack) && !Finishes(d, p)
  {}

  lemma WaveSys(d: Dtm, ack: bool)
    requires Wave(d, ack)
    ensures Wave(SysStep(d), ack)
  {}

  lemma WaveSlave(d: Dtm, ack: bool, ack': bool)
    requires Wave(d, ack) && AckOk(d, ack, ack')
    ensures Wave(d, ack')
  {}

  // ---------------------------------------------------------------- progress

  function One(b: bool): nat { if b then 1 else 0 }

  function Ones(d: Dtm, ack: bool): nat {
    One(d.jtagReq) + One(d.req0) + One(d.req1) + One(ack) + One(d.ack0) + One(d.ack1)
  }

  /** Moves left in the handshake: the wave of ones has to fill the ring and then to leave it. */
  function Left(d: Dtm, ack: bool): nat {
    if d.jtagReq then 12 - Ones(d, ack) else Ones(d, ack)
  }

  /** No move of either clock or of the slave sets a handshake back. */
  lemma NeverBack(w: Widths, d: Dtm, p: Pins, s: Slave, s': Slave)
    requires Sized(w, d) && Wave(d, s.ack) && SlaveOk(w, d, s, s')
    ensures !Accepts(d, p) ==> Left(TckStep(w, d, p, s), s.ack) <= Left(d, s.ack)
    ensures Left(SysStep(d), s.ack) <= Left(d, s.ack)
    ensures Left(d, s'.ack) <= Left(d, s.ack)
  {}

  /** While the ring is not quiet, a system clock edge, an answer of the slave, or a JTAG clock edge
      with the chain selected brings the handshake closer to its end. */
  lemma AlwaysForward(w: Widths, d: Dtm, p: Pins, s: Slave, s': Slave)
    requires Sized(w, d) && Wave(d, s.ack) && !Quiet(d, s.ack) && p.sel && SlaveOk(w, d, s, s')
    requires s'.ack == d.req1
    ensures || Left(SysStep(d), s.ack) < Left(d, s.ack)
            || Left(d, s'.ack) < Left(d, s.ack)
            || Left(TckStep(w, d, p, s), s.ack) < Left(d, s.ack)
  {}

  // ---------------------------------------------------------------- commands and transactions

  datatype Cmd = Cmd(op: Bits, addr: Bits, data: Bits)
  datatype Reply = Reply(addr: Bits, data: Bits)

  function CmdOf(w: Widths, r: Bits): Cmd
    requires |r| == w.Length()
  { Cmd(OpOf(r), AddrOf(w, r), DataOf(w, r)) }

  /** Commands latched by the transport, transactions the slave saw start (a rise of its request
      line), and the data the slave acknowledged with, each with the address it saw. */
  datatype History = History(accepted: seq<Cmd>, started: seq<Cmd>, replies: seq<Reply>)

  function TckHistory(w: Widths, d: Dtm, p: Pins, h: History): History
    requires Sized(w, d)
  { if Accepts(d, p) then h.(accepted := h.accepted + [CmdOf(w, d.shiftr)]) else h }

  function SysHistory(w: Widths, d: Dtm, h: History): History
    requires Sized(w, d)
  { if d.req0 && !d.req1 then h.(started := h.started + [CmdOf(w, d.request)]) else h }

  function SlaveHistory(w: Widths, d: Dtm, s: Slave, s': Slave, h: History): History
    requires Sized(w, d)
  { if s'.ack && !s.ack then h.(replies := h.replies + [Reply(AddrOf(w, d.request), s'.din)]) else h }

  function Last<T>(x: seq<T>): T
    requires |x| > 0
  { x[|x| - 1] }

  /** Transactions are the accepted commands in order, except that the newest may not have reached the
      slave; the request register keeps showing the newest command. */
  ghost predicate CmdOk(w: Widths, d: Dtm, ack: bool, h: History)
    requires Sized(w, d)
  {
    && |h.accepted| == |h.started| + One(d.jtagReq && !d.req1)
    && h.started <= h.accepted
    && (!Quiet(d, ack) ==> h.accepted != [])
    && (h.accepted != [] ==>
          && OpValid(Last(h.accepted).op)
          && OpOf(d.request) == Last(h.accepted).op && AddrOf(w, d.request) == Last(h.accepted).addr
          && (d.jtagReq || Last(h.accepted).op == WR ==> DataOf(w, d.request) == Last(h.accepted).data))
  }

  /** The slave has answered every command but perhaps the newest, at its address; the request
      register holds the answer to a read that is over. */
  ghost predicate ReplyOk(w: Widths, d: Dtm, s: Slave, h: History)
    requires Sized(w, d)
  {
    && |h.accepted| == |h.replies| + One(d.jtagReq && !s.ack)
    && (forall k | 0 <= k < |h.replies| :: h.replies[k].addr == h.accepted[k].addr)
    && (h.accepted != [] && !d.jtagReq && Last(h.accepted).op == RD ==> DataOf(w, d.request) == Last(h.replies).data)
    && (s.ack && d.req1 ==> h.replies != [] && s.din == Last(h.replies).data)
  }

  ghost predicate RingOk(w: Widths, d: Dtm, ack: bool, h: History) { Sized(w, d) && Wave(d, ack) && CmdOk(w, d, ack, h) }

  ghost predicate Inv(w: Widths, d: Dtm, s: Slave, h: History) {
    |s.din| == w.dbits && RingOk(w, d, s.ack, h) && ReplyOk(w, d, s, h)
  }

  lemma FinishedRead(w: Widths, d: Dtm, p: Pins, din: Bits)
    requires Sized(w, d) && |din| == w.dbits && Finishes(d, p) && !Accepts(d, p) && OpOf(d.request) == RD
    ensures var r := NextRequest(w, d, p, din);
      |r| == w.Length() && OpOf(r) == RD && AddrOf(w, r) == AddrOf(w, d.request) && DataOf(w, r) == din
  {
    var r := NextRequest(w, d, p, din);
    assert OpOf(r) == RD && AddrOf(w, r) == AddrOf(w, d.request) && DataOf(w, r) == din;
  }

  /** A command is latched only when nothing is in progress, and then it is the only one pending. */
  lemma TckRing(w: Widths, d: Dtm, p: Pins, s: Slave, h: History)
    requires RingOk(w, d, s.ack, h) && |s.din| == w.dbits
    ensures RingOk(w, TckStep(w, d, p, s), s.ack, TckHistory(w, d, p, h))
  {
    WaveTck(w, d, p, s);
    if Finishes(d, p) && OpOf(d.request) == RD { FinishedRead(w, d, p, s.din); }
  }

  lemma SysRing(w: Widths, d: Dtm, ack: bool, h: History)
    requires RingOk(w, d, ack, h)
    ensures RingOk(w, SysStep(d), ack, SysHistory(w, d, h))
  {
    WaveSys(d, ack);
    if d.req0 && !d.req1 {
      assert h.started + [Last(h.accepted)] == h.accepted;
    }
  }

  lemma SlaveRing(w: Widths, d: Dtm, ack: bool, ack': bool, h: History)
    requires RingOk(w, d, ack, h) && AckOk(d, ack, ack')
    ensures RingOk(w, d, ack', h)
  {
    WaveSlave(d, ack, ack');
  }

  lemma TckInv(w: Widths, d: Dtm, p: Pins, s: Slave, h: History)
    requires Inv(w, d, s, h)
    ensures Inv(w, TckStep(w, d, p, s), s, TckHistory(w, d, p, h))
  {
    WaveTck(w, d, p, s);
    TckRing(w, d, p, s, h);
    if Finishes(d, p) && OpOf(d.request) == RD { FinishedRead(w, d, p, s.din); }
  }

  lemma SysInv(w: Widths, d: Dtm, s: Slave, h: History)
    requires Inv(w, d, s, h)
    ensures Inv(w, SysStep(d), s, SysHistory(w, d, h))
  {
    SysRing(w, d, s.ack, h);
  }

  lemma SlaveInv(w: Widths, d: Dtm, s: Slave, s': Slave, h: History)
    requires Inv(w, d, s, h) && SlaveOk(w, d, s, s')
    ensures Inv(w, d, s', SlaveHistory(w, d, s, s', h))
  {
    SlaveRing(w, d, s.ack, s'.ack, h);
  }
}
