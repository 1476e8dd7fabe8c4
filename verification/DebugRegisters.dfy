/** What each register of the core debug unit holds after any run, register numbers and bits written
    out. */
module DebugRegisters {
  import opened CoreDebug
  import opened DmiTransport

  /** The four-bit register number n. */
  predicate Reg(a: Bits, n: nat) { |a| == 4 && Value(a) == n }

  lemma ValueOfFour(a: Bits)
    requires |a| == 4
    ensures Value(a) == One(a[0]) + 2 * One(a[1]) + 4 * One(a[2]) + 8 * One(a[3])
  {
    assert a[1..][1..] == a[2..] && a[2..][1..] == a[3..] && a[3..][1..] == [];
    assert Value(a[3..]) == One(a[3]);
    assert Value(a[2..]) == One(a[2]) + 2 * Value(a[3..]);
    assert Value(a[1..]) == One(a[1]) + 2 * Value(a[2..]);
  }

  /** The register numbers. */
  lemma RegisterMap(a: Bits)
    ensures Reg(a, 0) <==> a == CTRL
    ensures Reg(a, 4) <==> a == GSPR_INDEX
    ensures Reg(a, 6) <==> a == LOG_ADDR
    ensures Reg(a, 7) <==> a == LOG_DATA
    ensures Reg(a, 8) <==> a == LOG_TRIGGER
    ensures Reg(a, 9) <==> a == LOG_MTRIGGER
  {
    if |a| == 4 { ValueOfFour(a); }
  }

  /** Bits and low fields of a data word are the ones at their places. */
  lemma FieldBits(b: Bits, n: nat, k: nat)
    requires k < n <= |b|
    ensures |Low(b, n)| == n && Low(b, n)[k] == b[k] && Bit(b, k) == b[k] && !Bit(b, |b|)
  {}

  // ---------------------------------------------------------------- one event

  predicate Writes(e: Event, n: nat) { e.Write? && Reg(e.addr, n) }

  /** Events that decide whether the core is stopping: a termination, and a control write with the stop
      or the start bit. */
  predicate DecidesStop(e: Event) { e.Terminate? || (Writes(e, 0) && (Bit(e.din, 0) || Bit(e.din, 4))) }

  /** Events that decide whether the core counts as terminated: a termination, and a control write with
      the reset, the step or the start bit. */
  predicate DecidesEnd(e: Event) { e.Terminate? || (Writes(e, 0) && (Bit(e.din, 1) || Bit(e.din, 3) || Bit(e.din, 4))) }

  lemma StopOf(len: nat, r: Regs, e: Event)
    requires len > 0
    ensures var r' := Perform(len, r, e);
      r'.stopping == if DecidesStop(e) then e.Terminate? || !Bit(e.din, 4) else r.stopping
    ensures var r' := Perform(len, r, e);
      r'.terminated == if DecidesEnd(e) then e.Terminate? else r.terminated
  {
    if e.Write? { RegisterMap(e.addr); }
  }

  lemma WordsOf(len: nat, r: Regs, e: Event)
    requires len > 0
    ensures var r' := Perform(len, r, e);
      && r'.gsprIndex == (if Writes(e, 4) then Low(e.din, 8) else r.gsprIndex)
      && r'.trigger == (if Writes(e, 8) then e.din
                        else if e.Expire? && |r.trigger| > 1 then r.trigger[1 := e.log] else r.trigger)
      && r'.mtrigger == (if Writes(e, 9) then e.din
                         else if e.Expire? && |r.mtrigger| > 1 then r.mtrigger[1 := e.mem] else r.mtrigger)
  {
    if e.Write? { RegisterMap(e.addr); }
  }

  // ---------------------------------------------------------------- all events

  /** The last event with a property decides; without one the register keeps its value. */
  lemma {:induction false} StopIsLast(len: nat, r: Regs, es: seq<Event>, k: nat)
    requires len > 0 && k < |es| && DecidesStop(es[k]) && forall j | k < j < |es| :: !DecidesStop(es[j])
    ensures PerformAll(len, r, es).stopping == (es[k].Terminate? || !Bit(es[k].din, 4))
    decreases |es|
  {
    hide Perform, DecidesStop;
    var p := es[..|es| - 1];
    StopOf(len, PerformAll(len, r, p), Last(es));
    if k == |es| - 1 {
    } else {
      StopIsLast(len, r, p, k);
    }
  }

  lemma {:induction false} EndIsLast(len: nat, r: Regs, es: seq<Event>, k: nat)
    requires len > 0 && k < |es| && DecidesEnd(es[k]) && forall j | k < j < |es| :: !DecidesEnd(es[j])
    ensures PerformAll(len, r, es).terminated == es[k].Terminate?
    decreases |es|
  {
    hide Perform, DecidesEnd;
    var p := es[..|es| - 1];
    StopOf(len, PerformAll(len, r, p), Last(es));
    if k == |es| - 1 {
    } else {
      EndIsLast(len, r, p, k);
    }
  }

  lemma {:induction false} Undecided(len: nat, r: Regs, es: seq<Event>)
    requires len > 0
    ensures (forall e <- es :: !DecidesStop(e)) ==> PerformAll(len, r, es).stopping == r.stopping
    ensures (forall e <- es :: !DecidesEnd(e)) ==> PerformAll(len, r, es).terminated == r.terminated
    decreases |es|
  {
    hide Perform, DecidesStop, DecidesEnd;
    if es == [] {
    } else {
      Undecided(len, r, es[..|es| - 1]);
      StopOf(len, PerformAll(len, r, es[..|es| - 1]), Last(es));
    }
  }

  /** In every run, at every moment: the core is stopping, or counts as terminated, as the last event that
      decides it says, or as at reset if there was none. */
  lemma StopAndEnd(page: Bits, len: nat, b: Board, ms: seq<Move>, k: nat)
    requires len > 0 && Starts(b) && RunOk(page, len, b, ms)
    ensures var e := Run(page, len, b, ms);
      && (k < |e.ev| && DecidesStop(e.ev[k]) && (forall j | k < j < |e.ev| :: !DecidesStop(e.ev[j])) ==>
            e.u.regs.stopping == (e.ev[k].Terminate? || !Bit(e.ev[k].din, 4)))
      && (k < |e.ev| && DecidesEnd(e.ev[k]) && (forall j | k < j < |e.ev| :: !DecidesEnd(e.ev[j])) ==>
            e.u.regs.terminated == e.ev[k].Terminate?)
      && ((forall x <- e.ev :: !DecidesStop(x)) ==> e.u.regs.stopping == b.u.regs.stopping)
      && ((forall x <- e.ev :: !DecidesEnd(x)) ==> e.u.regs.terminated == b.u.regs.terminated)
  {
    hide DecidesStop, DecidesEnd, PerformAll;
    EachCommandActsOnce(page, len, b, ms);
    var e := Run(page, len, b, ms);
    if k < |e.ev| && DecidesStop(e.ev[k]) && (forall j | k < j < |e.ev| :: !DecidesStop(e.ev[j])) {
      StopIsLast(len, b.u.regs, e.ev, k);
    }
    if k < |e.ev| && DecidesEnd(e.ev[k]) && (forall j | k < j < |e.ev| :: !DecidesEnd(e.ev[j])) {
      EndIsLast(len, b.u.regs, e.ev, k);
    }
    Undecided(len, b.u.regs, e.ev);
  }

  // ---------------------------------------------------------------- registers that commands write

  /** A command that writes register n of this unit. */
  predicate Sets(page: Bits, c: Cmd, n: nat) { Mine(page, c.addr) && c.op == WR && Reg(c.addr[..4], n) }

  /** The data of the last command that wrote register n, or what it held before. */
  function LastData(page: Bits, n: nat, cs: seq<Cmd>, d: Bits): Bits {
    if cs == [] then d
    else if Sets(page, Last(cs), n) then Last(cs).data
    else LastData(page, n, cs[..|cs| - 1], d)
  }

  /** The same over events. */
  function LastWritten(n: nat, es: seq<Event>, d: Bits): Bits {
    if es == [] then d
    else if Writes(Last(es), n) then Last(es).din
    else LastWritten(n, es[..|es| - 1], d)
  }

  lemma {:induction false} WrittenAppend(n: nat, es: seq<Event>, fs: seq<Event>, d: Bits)
    ensures LastWritten(n, es + fs, d) == LastWritten(n, fs, LastWritten(n, es, d))
  {
    if fs == [] {
      assert es + fs == es;
    } else {
      WrittenAppend(n, es, fs[..|fs| - 1], d);
      assert (es + fs)[..|es + fs| - 1] == es + fs[..|fs| - 1];
    }
  }

  /** Terminations and trigger expiries write no register. */
  lemma {:induction false} WrittenByAccesses(n: nat, es: seq<Event>, d: Bits)
    ensures LastWritten(n, es, d) == LastWritten(n, Accesses(es), d)
  {
    if es == [] {
    } else {
      var p, e := es[..|es| - 1], Last(es);
      WrittenByAccesses(n, p, d);
      if e.Terminate? || e.Expire? {
        assert Accesses(es) == Accesses(p);
      } else {
        assert Accesses(es)[..|Accesses(es)| - 1] == Accesses(p) && Last(Accesses(es)) == e;
      }
    }
  }

  lemma {:induction false} WrittenByCommands(page: Bits, n: nat, cs: seq<Cmd>, d: Bits)
    ensures LastWritten(n, Expected(page, cs), d) == LastData(page, n, cs, d)
  {
    if cs == [] {
    } else {
      var p, c := cs[..|cs| - 1], Last(cs);
      WrittenByCommands(page, n, p, d);
      WrittenAppend(n, Expected(page, p), Effects(page, c), d);
      WrittenByOne(page, n, c, LastData(page, n, p, d));
    }
  }

  lemma WrittenByOne(page: Bits, n: nat, c: Cmd, d: Bits)
    ensures LastWritten(n, Effects(page, c), d) == if Sets(page, c, n) then c.data else d
  {
    hide Reg;
    var fs := Effects(page, c);
    if fs != [] {
      assert fs[..1] == [fs[0]] && fs[..1][..0] == [];
      assert LastWritten(n, fs[..1], d) == if Writes(fs[0], n) then c.data else d;
    }
  }

  /** Two words agree in every bit but bit 1. */
  predicate SameButOne(a: Bits, b: Bits) { |a| == |b| && forall j | 0 <= j < |a| && j != 1 :: a[j] == b[j] }

  lemma {:induction false} WordsAreLast(len: nat, r: Regs, es: seq<Event>)
    requires len > 0 && |r.gsprIndex| == 8
    ensures var r' := PerformAll(len, r, es);
      && r'.gsprIndex == Low(LastWritten(4, es, r.gsprIndex), 8)
      && SameButOne(r'.trigger, LastWritten(8, es, r.trigger))
      && SameButOne(r'.mtrigger, LastWritten(9, es, r.mtrigger))
  {
    hide Perform, Writes;
    if es == [] {
      assert r.gsprIndex[..8] == r.gsprIndex;
    } else {
      WordsAreLast(len, r, es[..|es| - 1]);
      WordsOf(len, PerformAll(len, r, es[..|es| - 1]), Last(es));
    }
  }

  /** In every settled run the register index is the low eight bits of the data of the last accepted
      command that wrote register 4, and the trigger registers are, but for bit 1, the data of the last
      accepted commands that wrote registers 8 and 9; without such a command they are as at reset. */
  lemma RegistersFollowCommands(page: Bits, len: nat, b: Board, ms: seq<Move>)
    requires len > 0 && Starts(b) && RunOk(page, len, b, ms) && |b.u.regs.gsprIndex| == 8
    ensures var e, r := Run(page, len, b, ms), b.u.regs;
      Quiet(e.d, e.s.ack) && Due(page, e) == [] ==>
        && e.u.regs.gsprIndex == Low(LastData(page, 4, e.h.accepted, r.gsprIndex), 8)
        && SameButOne(e.u.regs.trigger, LastData(page, 8, e.h.accepted, r.trigger))
        && SameButOne(e.u.regs.mtrigger, LastData(page, 9, e.h.accepted, r.mtrigger))
  {
    hide PerformAll, SameButOne;
    EachCommandActsOnce(page, len, b, ms);
    var e, r := Run(page, len, b, ms), b.u.regs;
    WordsAreLast(len, r, e.ev);
    WrittenByAccesses(4, e.ev, r.gsprIndex);
    WrittenByAccesses(8, e.ev, r.trigger);
    WrittenByAccesses(9, e.ev, r.mtrigger);
    WrittenByCommands(page, 4, e.h.accepted, r.gsprIndex);
    WrittenByCommands(page, 8, e.h.accepted, r.trigger);
    WrittenByCommands(page, 9, e.h.accepted, r.mtrigger);
  }

  /** Bit 1 of a trigger register follows the last write to it or expiry of the delay. */
  lemma {:induction false} BitIsLast(len: nat, r: Regs, es: seq<Event>, n: nat, k: nat)
    requires len > 0 && (n == 8 || n == 9) && k < |es| && (Writes(es[k], n) || es[k].Expire?)
    requires forall j | k < j < |es| :: !Writes(es[j], n) && !es[j].Expire?
    requires |LastWritten(n, es, if n == 8 then r.trigger else r.mtrigger)| > 1 && |r.gsprIndex| == 8
    ensures var t := if n == 8 then PerformAll(len, r, es).trigger else PerformAll(len, r, es).mtrigger;
      |t| > 1 && t[1] == if es[k].Expire? then (if n == 8 then es[k].log else es[k].mem) else Bit(es[k].din, 1)
    decreases |es|
  {
    hide Perform, Reg;
    var p := es[..|es| - 1];
    WordsOf(len, PerformAll(len, r, p), Last(es));
    WordsAreLast(len, r, p);
    if k == |es| - 1 {
    } else {
      BitIsLast(len, r, p, n, k);
    }
  }

  /** In every run, at every moment, bit 1 of a trigger register is what its last write put there, or what
      the last expiry since says. */
  lemma TriggerBit(page: Bits, len: nat, b: Board, ms: seq<Move>, n: nat, k: nat)
    requires len > 0 && Starts(b) && RunOk(page, len, b, ms) && (n == 8 || n == 9) && |b.u.regs.gsprIndex| == 8
    requires var es := Run(page, len, b, ms).ev;
      && k < |es| && (Writes(es[k], n) || es[k].Expire?)
      && (forall j | k < j < |es| :: !Writes(es[j], n) && !es[j].Expire?)
      && |LastWritten(n, es, if n == 8 then b.u.regs.trigger else b.u.regs.mtrigger)| > 1
    ensures var e := Run(page, len, b, ms);
      var t := if n == 8 then e.u.regs.trigger else e.u.regs.mtrigger;
      |t| > 1 && t[1] == if e.ev[k].Expire? then (if n == 8 then e.ev[k].log else e.ev[k].mem) else Bit(e.ev[k].din, 1)
  {
    hide PerformAll, Writes, LastWritten;
    EachCommandActsOnce(page, len, b, ms);
    BitIsLast(len, b.u.regs, Run(page, len, b, ms).ev, n, k);
  }

  /** The one-cycle signals after a clock edge: step, reset and cache reset from bits 3, 1 and 2 of a
      control write, and a log read after a write of register 6 or an access to register 7. */
  lemma PulsesMean(len: nat, u: Unit, i: Inputs)
    requires len > 0
    ensures var p, w := NextUnit(len, u, i).pulses, i.req && !u.dmiReq1 && i.wr;
      && (p.step <==> w && Reg(i.addr, 0) && Bit(i.din, 3))
      && (p.reset <==> w && Reg(i.addr, 0) && Bit(i.din, 1))
      && (p.icreset <==> w && Reg(i.addr, 0) && Bit(i.din, 2))
      && (p.logRd <==> (w && Reg(i.addr, 6)) || (!(i.req && !u.dmiReq1) && !u.readLog && u.readLog1))
      && (NextUnit(len, u, i).readLog <==> i.req && Reg(i.addr, 7))
  {
    hide PerformAll, Perform;
    RegisterMap(i.addr);
  }
}
