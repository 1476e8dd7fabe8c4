/** The debugger side: scans of the JTAG data register with any moves of the system clock, the slave
    and idle JTAG clocks in between, and the polling read and write built on them. */
module DmiHost {
  import opened DmiMoves
  import opened DmiTransport
  import opened Wrappers

  /** Gaps before each active JTAG clock edge of a scan, and after the last. */
  type Schedule = seq<seq<Move>>

  /** Everything that happens around one scan. */
  datatype Poll = Poll(before: seq<Move>, gaps: Schedule, after: seq<Move>)

  function GapAt(t: Schedule, k: nat): seq<Move> { if k < |t| then t[k] else [] }

  lemma Progress(w: Widths, d: Dtm, s: Slave, ms: seq<Move>)
    requires RingWave(w, d, s)
    ensures var r := Play(w, d, s, ms);
      && Left(r.0, r.1.ack) <= Left(d, s.ack)
      && (Fair(ms) && !Quiet(d, s.ack) ==> Left(r.0, r.1.ack) < Left(d, s.ack))
  {
    hide Fair, Left, Quiet, Play;
    NothingMoved(w, d, s, ms);
    if Fair(ms) && !Quiet(d, s.ack) { FairForward(w, d, s, ms); }
  }

  lemma StaysQuiet(w: Widths, d: Dtm, s: Slave, h: History, m: Move)
    requires Inv(w, d, s, h)
    ensures Sized(w, d) && (Quiet(d, s.ack) ==> Quiet(Apply(w, d, s, m).0, Apply(w, d, s, m).1.ack))
  {
    ApplyWave(w, d, s, m);
  }

  function ShiftPins(tdi: bool): Pins { Pins(true, false, true, false, tdi) }

  lemma ShiftEdge(w: Widths, d: Dtm, s: Slave, h: History, tdi: bool)
    requires Inv(w, d, s, h)
    ensures var d' := TckStep(w, d, ShiftPins(tdi), s);
      && |d.shiftr| >= 2 && d'.shiftr == d.shiftr[1..] + [tdi] && TckHistory(w, d, ShiftPins(tdi), h) == h
      && Left(d', s.ack) <= Left(d, s.ack) && (Quiet(d, s.ack) ==> Quiet(d', s.ack) && d'.request == d.request)
  {
    hide CmdOk, ReplyOk;
  }

  /** The transport, the slave outputs and the history of the link. */
  class Link {
    const w: Widths
    var shiftr: Bits
    var request: Bits
    var jtagReq: bool
    var req0: bool
    var req1: bool
    var ack0: bool
    var ack1: bool
    var slave: Slave
    ghost var h: History

    ghost function View(): Dtm reads this { Dtm(shiftr, request, jtagReq, req0, req1, ack0, ack1) }

    ghost predicate Valid() reads this { Inv(w, View(), slave, h) }

    ghost predicate Idle() reads this { Quiet(View(), slave.ack) }

    /** Moves left in the handshake in progress. */
    ghost function Togo(): nat reads this { Left(View(), slave.ack) }

    /** Joint reset of both clock domains. */
    constructor (w: Widths)
      ensures Valid() && Idle() && this.w == w && h == History([], [], [])
    {
      this.w := w;
      shiftr, request := seq(w.Length(), _ => false), seq(w.Length(), _ => false);
      jtagReq, req0, req1, ack0, ack1 := false, false, false, false, false;
      slave := Slave(false, seq(w.dbits, _ => false));
      h := History([], [], []);
    }

    /** New values of the shift register, the request register and the request flag. */
    method Shifter(p: Pins) returns (sh: Bits, rq: Bits, jr: bool)
      requires Sized(w, View()) && |slave.din| == w.dbits && p.Ok()
      ensures sh == NextShiftr(w, View(), p) && rq == NextRequest(w, View(), p, slave.din)
      ensures jr == ((jtagReq || Accepts(View(), p)) && !Finishes(View(), p))
    {
      var busy := jtagReq || ack1;
      sh, rq, jr := shiftr, request, jtagReq;
      if p.sel {
        if p.shift { sh := shiftr[1..] + [p.tdi]; }
        if p.update && OpValid(shiftr[..2]) {
          if !busy { rq, jr := shiftr, true; }
          sh := BSY + shiftr[2..];
        }
        if jtagReq && ack1 {
          jr := false;
          if request[..2] == RD { rq := request[..2] + slave.din + request[2 + w.dbits..]; }
        }
        if p.capture { sh := (if busy then BSY else OK) + request[2..]; }
      }
    }

    /** One rising edge of the JTAG clock. */
    method TckEdge(p: Pins) returns (tdo: bool)
      requires Valid() && p.Ok()
      modifies this
      ensures Valid() && View() == TckStep(w, old(View()), p, old(slave)) && slave == old(slave)
      ensures h == TckHistory(w, old(View()), p, old(h))
      ensures tdo == old(shiftr)[0]
    {
      TckInv(w, View(), p, slave, h);
      tdo := shiftr[0];
      var sh, rq, jr := Shifter(p);
      h := TckHistory(w, View(), p, h);
      shiftr, request, jtagReq, ack0, ack1 := sh, rq, jr, slave.ack, ack0;
    }

    /** One rising edge of the system clock. */
    method SysEdge()
      requires Valid()
      modifies this
      ensures Valid() && View() == SysStep(old(View())) && slave == old(slave)
      ensures h == SysHistory(w, old(View()), old(h))
    {
      SysInv(w, View(), slave, h);
      h := SysHistory(w, View(), h);
      req0, req1 := jtagReq, req0;
    }

    /** The slave changes its outputs. */
    method SlaveMoves(s: Slave)
      requires Valid() && SlaveOk(w, View(), slave, s)
      modifies this
      ensures Valid() && View() == old(View()) && slave == s
      ensures h == SlaveHistory(w, View(), old(slave), s, old(h))
    {
      SlaveInv(w, View(), slave, s, h);
      h := SlaveHistory(w, View(), slave, s, h);
      slave := s;
    }

    /** One move with no active JTAG state. */
    method Make(m: Move)
      requires Valid()
      modifies this
      ensures Valid() && (View(), slave) == Apply(w, old(View()), old(slave), m)
      ensures shiftr == old(shiftr) && h.accepted == old(h.accepted) && old(h.replies) <= h.replies
      ensures old(Idle()) ==> request == old(request) && h == old(h)
    {
      match m {
        case Sys => SysEdge();
        case Pause(sel) => var _ := TckEdge(IdlePins(sel));
        case Respond(din) =>
          ResponseOk(w, View(), slave, din);
          SlaveMoves(Slave(req1, if |din| == w.dbits && !(slave.ack && req1) then din else slave.din));
        case Answer(s) =>
          if |s.din| == w.dbits && (s.ack && !slave.ack ==> req1) && (slave.ack && req1 ==> s == slave) { SlaveMoves(s); }
      }
    }

    /** Any moves with no active JTAG state: nothing is accepted, the shift register stays, an idle link
        stays as it is, and fair moves bring a busy one closer to the end of its handshake. */
    method Wait(moves: seq<Move>)
      requires Valid()
      modifies this
      ensures Valid() && shiftr == old(shiftr) && h.accepted == old(h.accepted) && old(h.replies) <= h.replies
      ensures old(Idle()) ==> Idle() && request == old(request) && h == old(h)
      ensures Togo() <= old(Togo()) && (Fair(moves) && !old(Idle()) ==> Togo() < old(Togo()))
    {
      ghost var d, s := View(), slave;
      Progress(w, d, s, moves);
      hide Inv, Quiet, Left, Fair, Apply;
      for k := 0 to |moves|
        invariant Valid() && shiftr == old(shiftr) && h.accepted == old(h.accepted) && old(h.replies) <= h.replies
        invariant (View(), slave) == Play(w, d, s, moves[..k])
        invariant old(Idle()) ==> Idle() && request == old(request) && h == old(h)
      {
        assert moves[..k + 1][..k] == moves[..k];
        StaysQuiet(w, View(), slave, h, moves[k]);
        Make(moves[k]);
      }
      assert moves[..|moves|] == moves;
    }

    lemma FewToGo()
      requires Valid()
      ensures Togo() <= 11
    {
      LeftBound(View(), slave.ack);
    }

    lemma ShiftrSize()
      requires Valid()
      ensures |shiftr| == w.Length() >= 2 && |request| == w.Length()
    {}

    /** One shift with whatever happens before it. */
    method ShiftBit(tdi: bool, gap: seq<Move>) returns (tdo: bool)
      requires Valid()
      modifies this
      ensures Valid() && h.accepted == old(h.accepted) && old(h.replies) <= h.replies
      ensures tdo == old(shiftr)[0] && shiftr == old(shiftr)[1..] + [tdi]
      ensures old(Idle()) ==> Idle() && request == old(request) && h == old(h)
      ensures Togo() <= old(Togo())
    {
      hide Inv, Fair, Left, Quiet, TckStep, TckHistory;
      Wait(gap);
      ShiftEdge(w, View(), slave, h, tdi);
      tdo := TckEdge(ShiftPins(tdi));
    }

    /** Shift a word in, bit 0 first, and collect what comes out: the old contents. */
    method ShiftWord(bits: Bits, t: Schedule) returns (out: Bits)
      requires Valid() && |bits| == w.Length()
      modifies this
      ensures Valid() && shiftr == bits && out == old(shiftr) && h.accepted == old(h.accepted) && old(h.replies) <= h.replies
      ensures old(Idle()) ==> Idle() && request == old(request) && h == old(h)
      ensures Togo() <= old(Togo())
    {
      hide Inv, Quiet, Left;
      out := [];
      assert |shiftr| == |bits| by { ShiftrSize(); }
      for k := 0 to |bits|
        invariant Valid() && h.accepted == old(h.accepted) && old(h.replies) <= h.replies && Togo() <= old(Togo())
        invariant old(Idle()) ==> Idle() && request == old(request) && h == old(h)
        invariant out == old(shiftr)[..k] && shiftr == old(shiftr)[k..] + bits[..k]
      {
        var tdo := ShiftBit(bits[k], GapAt(t, k));
        out := out + [tdo];
      }
    }

    /** The capture edge: the shift register shows the status and the request register. */
    method Capture()
      requires Valid()
      modifies this
      ensures Valid() && h == old(h) && (old(Idle()) ==> Idle() && request == old(request))
      ensures |shiftr| == w.Length() && shiftr[..2] == (if old(Idle()) then OK else BSY) && shiftr[2..] == old(request)[2..]
      ensures Togo() <= old(Togo())
    {
      NotBusyIsQuiet(View(), slave.ack);
      var _ := TckEdge(Pins(true, true, false, false, false));
      assert shiftr[..2] == (if old(Idle()) then OK else BSY) && shiftr[2..] == old(request)[2..];
    }

    /** The update edge: an idle link latches a valid command, and no other edge does. */
    method Update()
      requires Valid()
      modifies this
      ensures Valid() && h.replies == old(h.replies)
      ensures !OpValid(OpOf(old(shiftr))) ==> h == old(h) && Togo() <= old(Togo()) && (old(Idle()) ==> Idle() && request == old(request))
      ensures old(Idle()) && OpValid(OpOf(old(shiftr))) ==> h.accepted == old(h.accepted) + [CmdOf(w, old(shiftr))]
    {
      NotBusyIsQuiet(View(), slave.ack);
      var _ := TckEdge(Pins(true, false, false, true, false));
    }

    /** One scan of the data register: capture, shift, update.  The status shifted out is OK or BSY.
        OK means that the link was idle; a command is then latched for certain, and for a poll the
        data shifted out is the request register's.  A poll after fair moves that is still answered BSY
        leaves the handshake closer to its end. */
    method Scan(bits: Bits, before: seq<Move>, t: Schedule, after: seq<Move>) returns (out: Bits)
      requires Valid() && |bits| == w.Length()
      modifies this
      ensures Valid() && |out| == w.Length() && (OpOf(out) == OK || OpOf(out) == BSY)
      ensures old(h.replies) <= h.replies && (old(Idle()) ==> OpOf(out) == OK)
      ensures OpOf(out) == OK && OpValid(OpOf(bits)) ==> h.accepted == old(h.accepted) + [CmdOf(w, bits)]
      ensures !OpValid(OpOf(bits)) ==> h.accepted == old(h.accepted)
      ensures OpOf(out) == OK && !OpValid(OpOf(bits)) ==> Idle() && out[2..] == request[2..]
      ensures old(Idle()) && !OpValid(OpOf(bits)) ==> h == old(h) && request == old(request)
      ensures Fair(before) && !OpValid(OpOf(bits)) && OpOf(out) == BSY ==> Togo() < old(Togo())
    {
      hide Inv, Quiet, Left, Fair;
      Wait(before);
      Capture();
      out := ShiftWord(bits, t);
      Wait(GapAt(t, |bits|));
      Update();
      Wait(after);
    }

    /** Poll with no-operation scans until the status is OK; `None` if the scans run out first.
        Nothing is latched, and the link is idle when the answer comes.  Twelve polls with fair moves
        before them are enough. */
    method PollUntilOk(data: Bits, polls: seq<Poll>) returns (r: Option<Bits>)
      requires Valid() && |data| == w.dbits
      modifies this
      ensures Valid() && h.accepted == old(h.accepted) && old(h.replies) <= h.replies
      ensures r.Some? ==> Idle() && r.value == DataOf(w, request)
      ensures |polls| >= 12 && (forall p <- polls :: Fair(p.before)) ==> r.Some?
    {
      hide Inv, Left, Fair, Quiet;
      var sent := data;
      FewToGo();
      for k := 0 to |polls|
        invariant Valid() && |sent| == w.dbits && h.accepted == old(h.accepted) && old(h.replies) <= h.replies
        invariant (forall p <- polls :: Fair(p.before)) ==> Togo() + k <= old(Togo())
      {
        var bits := NOP + sent + seq(w.abits, _ => false);
        assert OpOf(bits) == NOP;
        var out := Scan(bits, polls[k].before, polls[k].gaps, polls[k].after);
        sent := out[2..2 + w.dbits];
        if out[..2] == OK {
          ShiftrSize();
          assert sent == out[2..][..w.dbits] == request[2..][..w.dbits];
          return Some(sent);
        }
        assert out[..2] == BSY;
      }
      return None;
    }

    /** Read a DMI register.  The command is latched exactly once whatever happens; when the answer
        comes, the slave has seen exactly one transaction more, for this address, and the data is
        what the slave answered to it.  It comes at the latest with the twelfth poll after fair moves. */
    method DmiRead(addr: Bits, data: Bits, first: Poll, polls: seq<Poll>) returns (r: Option<Bits>)
      requires Valid() && Idle() && |addr| == w.abits && |data| == w.dbits
      modifies this
      ensures Valid() && h.accepted == old(h.accepted) + [Cmd(RD, addr, data)]
      ensures r.Some? ==> Idle() && h.started == old(h.started) + [Cmd(RD, addr, data)]
      ensures r.Some? ==> h.replies == old(h.replies) + [Reply(addr, r.value)]
      ensures |polls| >= 12 && (forall p <- polls :: Fair(p.before)) ==> r.Some?
    {
      var bits := RD + data + addr;
      assert CmdOf(w, bits) == Cmd(RD, addr, data);
      var out := Scan(bits, first.before, first.gaps, first.after);
      r := PollUntilOk(out[2..2 + w.dbits], polls);
      assert r.Some? ==> Last(h.accepted) == Cmd(RD, addr, data);
    }

    /** Write a DMI register: exactly one transaction with this address and data. */
    method DmiWrite(addr: Bits, data: Bits, first: Poll, polls: seq<Poll>) returns (done: bool)
      requires Valid() && Idle() && |addr| == w.abits && |data| == w.dbits
      modifies this
      ensures Valid() && h.accepted == old(h.accepted) + [Cmd(WR, addr, data)]
      ensures done ==> Idle() && h.started == old(h.started) + [Cmd(WR, addr, data)]
      ensures |polls| >= 12 && (forall p <- polls :: Fair(p.before)) ==> done
    {
      var bits := WR + data + addr;
      assert CmdOf(w, bits) == Cmd(WR, addr, data);
      var _ := Scan(bits, first.before, first.gaps, first.after);
      var r := PollUntilOk(seq(w.dbits, _ => false), polls);
      done := r.Some?;
    }
  }
}
