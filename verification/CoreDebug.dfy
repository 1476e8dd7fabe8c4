/** The core debug unit as a slave of the JTAG to DMI transport: edge-detected register actions and
    the log address that steps after each access to the log data register. */
module CoreDebug {
  import opened Arith
  import opened DmiTransport

  // Register numbers, least significant bit first.
  const CTRL: Bits := [false, false, false, false]
  const GSPR_INDEX: Bits := [false, false, true, false]
  const LOG_ADDR: Bits := [false, true, true, false]
  const LOG_DATA: Bits := [true, true, true, false]
  const LOG_TRIGGER: Bits := [false, false, false, true]
  const LOG_MTRIGGER: Bits := [true, false, false, true]

  const CTRL_STOP := 0
  const CTRL_RESET := 1
  const CTRL_ICRESET := 2
  const CTRL_STEP := 3
  const CTRL_START := 4

  /** The log address: the ring position, below four doublewords for each log entry, and the bits above. */
  datatype LogAddr = LogAddr(high: nat, pos: nat)

  /** The lasting registers. */
  datatype Regs = Regs(stopping: bool, terminated: bool, gsprIndex: Bits, logAddr: LogAddr, trigger: Bits, mtrigger: Bits)

  /** The delay between a trigger and its effect: clocks counted, and which triggers came. */
  datatype Delay = Delay(count: nat, log: bool, mem: bool)

  /** The one-cycle signals. */
  datatype Pulses = Pulses(step: bool, reset: bool, icreset: bool, logRd: bool)

  const QUIET: Pulses := Pulses(false, false, false, false)

  /** What the core and the log report at a clock edge: termination, and matches of the two triggers. */
  datatype Reports = Reports(terminate: bool, log: bool, mem: bool)

  /** Inputs at a clock edge. */
  datatype Inputs = Inputs(req: bool, wr: bool, addr: Bits, din: Bits, core: Reports)

  datatype Unit = Unit(regs: Regs, delay: Delay, pulses: Pulses, dmiReq1: bool, readLog: bool, readLog1: bool)

  /** Bit k, and the low n bits, of a word. */
  predicate Bit(b: Bits, k: nat) { k < |b| && b[k] }
  function Low(b: Bits, n: nat): Bits { if n <= |b| then b[..n] else b }

  function Value(b: Bits): nat { if b == [] then 0 else One(b[0]) + 2 * Value(b[1..]) }

  // ---------------------------------------------------------------- what a register access means

  /** A register access, the step of the log address after one, the end of a trigger delay, termination. */
  datatype Event = Write(addr: Bits, din: Bits) | Read(addr: Bits) | Advance | Expire(log: bool, mem: bool) | Terminate

  /** Bit 1 of a trigger register says that the trigger has come. */
  function Triggered(t: Bits, b: bool): Bits { if |t| > 1 then t[1 := b] else t }

  function SplitAddr(len: nat, v: nat): LogAddr
    requires len > 0
  { LogAddr(v / (4 * len), v % (4 * len)) }

  function Advanced(len: nat, a: LogAddr): LogAddr { a.(pos := if a.pos + 1 == 4 * len then 0 else a.pos + 1) }

  function Perform(len: nat, r: Regs, e: Event): Regs
    requires len > 0
  {
    match e
    case Write(addr, din) =>
      if addr == CTRL then
        r.(stopping := (r.stopping || Bit(din, CTRL_STOP)) && !Bit(din, CTRL_START),
           terminated := r.terminated && !Bit(din, CTRL_RESET) && !Bit(din, CTRL_STEP) && !Bit(din, CTRL_START))
      else if addr == GSPR_INDEX then r.(gsprIndex := Low(din, 8))
      else if addr == LOG_ADDR then r.(logAddr := SplitAddr(len, Value(Low(din, 32))))
      else if addr == LOG_TRIGGER then r.(trigger := din)
      else if addr == LOG_MTRIGGER then r.(mtrigger := din)
      else r
    case Read(_) => r
    case Advance => r.(logAddr := Advanced(len, r.logAddr))
    case Expire(log, mem) => r.(trigger := Triggered(r.trigger, log), mtrigger := Triggered(r.mtrigger, mem))
    case Terminate => r.(stopping := true, terminated := true)
  }

  function PerformAll(len: nat, r: Regs, es: seq<Event>): Regs
    requires len > 0
  { if es == [] then r else Perform(len, PerformAll(len, r, es[..|es| - 1]), Last(es)) }

  /** The pulses an event starts. */
  function PulsesOf(e: Event): Pulses {
    match e
    case Write(addr, din) =>
      if addr == CTRL then Pulses(Bit(din, CTRL_STEP), Bit(din, CTRL_RESET), Bit(din, CTRL_ICRESET), false)
      else Pulses(false, false, false, addr == LOG_ADDR)
    case Advance => Pulses(false, false, false, true)
    case _ => QUIET
  }

  /** The access performed at a clock edge, if any. */
  function AccessAt(u: Unit, i: Inputs): seq<Event> {
    if i.req && !u.dmiReq1 then [if i.wr then Write(i.addr, i.din) else Read(i.addr)]
    else if !u.readLog && u.readLog1 then [Advance]
    else []
  }

  // ---------------------------------------------------------------- trigger delay

  predicate Counting(d: Delay, c: Reports) { c.log || c.mem || d.count != 0 }

  /** The delay ends at this clock edge. */
  predicate Expires(len: nat, d: Delay, c: Reports) {
    Counting(d, c) && (d.count == 255 || (len < 1024 && d.count == len / 4))
  }

  function NextDelay(len: nat, d: Delay, c: Reports): Delay {
    var ends := Expires(len, d, c);
    Delay(if ends then 0 else if Counting(d, c) then d.count + 1 else d.count,
          c.log || (d.log && !ends), c.mem || (d.mem && !ends))
  }

  function ExpiryAt(len: nat, d: Delay, c: Reports): seq<Event> { if Expires(len, d, c) then [Expire(d.log, d.mem)] else [] }

  /** Everything a clock edge does, in order. */
  function EventsAt(len: nat, u: Unit, i: Inputs): seq<Event> {
    ExpiryAt(len, u.delay, i.core) + AccessAt(u, i) + if i.core.terminate then [Terminate] else []
  }

  function NextUnit(len: nat, u: Unit, i: Inputs): Unit
    requires len > 0
  {
    var access := AccessAt(u, i);
    Unit(PerformAll(len, u.regs, EventsAt(len, u, i)), NextDelay(len, u.delay, i.core),
         if access == [] then QUIET else PulsesOf(access[0]),
         i.req, i.req && i.addr == LOG_DATA, u.readLog)
  }

  function DelayAfter(len: nat, d: Delay, cs: seq<Reports>): Delay
    decreases |cs|
  { if cs == [] then d else NextDelay(len, DelayAfter(len, d, cs[..|cs| - 1]), cs[|cs| - 1]) }

  /** Clocks from a trigger to its effect. */
  function Limit(len: nat): nat { if len < 1024 then len / 4 else 255 }

  /** However the triggers come, the delay that starts with the first one ends exactly `Limit` clocks
      later, not before, and reports just the triggers that came in between. */
  lemma {:induction false} DelayIsExact(len: nat, cs: seq<Reports>, n: nat)
    requires cs != [] && (cs[0].log || cs[0].mem) && |cs| == Limit(len) + 1 && n < |cs|
    ensures var d := DelayAfter(len, Delay(0, false, false), cs[..n]);
      && (Expires(len, d, cs[n]) <==> n == Limit(len))
      && d == Delay(n, exists k | 0 <= k < n :: cs[k].log, exists k | 0 <= k < n :: cs[k].mem)
  {
    if n == 0 {
      assert cs[..0] == [];
    } else {
      DelayIsExact(len, cs, n - 1);
      assert cs[..n][..n - 1] == cs[..n - 1];
    }
  }

  // ---------------------------------------------------------------- the clocked process

  class DebugUnit {
    const len: nat
    var stopping: bool
    var terminated: bool
    var gsprIndex: Bits
    var logAddr: LogAddr
    var trigger: Bits
    var mtrigger: Bits
    var delay: Delay
    var doStep: bool
    var doReset: bool
    var doIcreset: bool
    var doLogRd: bool
    var dmiReq1: bool
    var readLog: bool
    var readLog1: bool

    ghost function View(): Unit reads this {
      Unit(Regs(stopping, terminated, gsprIndex, logAddr, trigger, mtrigger), delay, Pulses(doStep, doReset, doIcreset, doLogRd),
           dmiReq1, readLog, readLog1)
    }

    /** The actions of the control register. */
    method Control(din: Bits)
      modifies `stopping, `terminated, `doStep, `doReset, `doIcreset
      ensures stopping == ((old(stopping) || Bit(din, CTRL_STOP)) && !Bit(din, CTRL_START))
      ensures terminated == (old(terminated) && !Bit(din, CTRL_RESET) && !Bit(din, CTRL_STEP) && !Bit(din, CTRL_START))
      ensures doStep == (old(doStep) || Bit(din, CTRL_STEP)) && doReset == (old(doReset) || Bit(din, CTRL_RESET))
      ensures doIcreset == (old(doIcreset) || Bit(din, CTRL_ICRESET))
    {
      if Bit(din, CTRL_RESET) { doReset, terminated := true, false; }
      if Bit(din, CTRL_STOP) { stopping := true; }
      if Bit(din, CTRL_STEP) { doStep, terminated := true, false; }
      if Bit(din, CTRL_ICRESET) { doIcreset := true; }
      if Bit(din, CTRL_START) { stopping, terminated := false, false; }
    }

    /** A write to one of the registers. */
    method WriteReg(addr: Bits, din: Bits)
      requires len > 0 && !doStep && !doReset && !doIcreset && !doLogRd
      modifies `stopping, `terminated, `gsprIndex, `logAddr, `trigger, `mtrigger, `doStep, `doReset, `doIcreset, `doLogRd
      ensures View().regs == Perform(len, old(View()).regs, Write(addr, din))
      ensures View().pulses == PulsesOf(Write(addr, din))
    {
      if addr == CTRL {
        Control(din);
      } else if addr == GSPR_INDEX {
        gsprIndex := Low(din, 8);
      } else if addr == LOG_ADDR {
        logAddr, doLogRd := SplitAddr(len, Value(Low(din, 32))), true;
      } else if addr == LOG_TRIGGER {
        trigger := din;
      } else if addr == LOG_MTRIGGER {
        mtrigger := din;
      }
    }

    /** The trigger delay. */
    method CountDelay(c: Reports)
      requires len > 0
      modifies `trigger, `mtrigger, `delay
      ensures delay == NextDelay(len, old(delay), c)
      ensures View().regs == PerformAll(len, old(View()).regs, ExpiryAt(len, old(delay), c))
    {
      ghost var r, es := View().regs, ExpiryAt(len, delay, c);
      assert es != [] ==> es[..0] == [] && PerformAll(len, r, []) == r;
      var d := delay;
      if c.log || c.mem || delay.count != 0 {
        if delay.count == 255 || (len < 1024 && delay.count == len / 4) {
          trigger, mtrigger := Triggered(trigger, delay.log), Triggered(mtrigger, delay.mem);
          d := Delay(0, false, false);
        } else {
          d := d.(count := d.count + 1);
        }
      }
      if c.log { d := d.(log := true); }
      if c.mem { d := d.(mem := true); }
      delay := d;
    }

    /** The register access of a clock edge. */
    method Access(i: Inputs)
      requires len > 0
      modifies `stopping, `terminated, `gsprIndex, `logAddr, `trigger, `mtrigger, `doStep, `doReset, `doIcreset, `doLogRd
      ensures View().regs == PerformAll(len, old(View()).regs, AccessAt(old(View()), i))
      ensures View().pulses == var access := AccessAt(old(View()), i); if access == [] then QUIET else PulsesOf(access[0])
    {
      ghost var r, es := View().regs, AccessAt(View(), i);
      assert es != [] ==> es[..0] == [] && PerformAll(len, r, []) == r;
      doStep, doReset, doIcreset, doLogRd := false, false, false, false;
      if i.req && !dmiReq1 {
        if i.wr { WriteReg(i.addr, i.din); }
      } else if !readLog && readLog1 {
        logAddr, doLogRd := Advanced(len, logAddr), true;
      }
    }

    /** One clock edge out of reset: the trigger delay, then at most one register access, each once per
        rise of the request, then termination. */
    method Tick(i: Inputs)
      requires len > 0
      modifies this
      ensures View() == NextUnit(len, old(View()), i)
    {
      hide PerformAll, AccessAt, ExpiryAt, NextDelay, PulsesOf, EventsAt;
      ghost var u := View();
      InThree(len, u, i);
      CountDelay(i.core);
      SameAccess(u, View(), i);
      Access(i);
      dmiReq1, readLog1, readLog := i.req, readLog, i.req && i.addr == LOG_DATA;
      if i.core.terminate { stopping, terminated := true, true; }
    }
  }

  lemma InThree(len: nat, u: Unit, i: Inputs)
    requires len > 0
    ensures var r := PerformAll(len, PerformAll(len, u.regs, ExpiryAt(len, u.delay, i.core)), AccessAt(u, i));
      PerformAll(len, u.regs, EventsAt(len, u, i)) == if i.core.terminate then r.(stopping := true, terminated := true) else r
  {
    var x, a := ExpiryAt(len, u.delay, i.core), AccessAt(u, i);
    PerformAppend(len, u.regs, x, a);
    if i.core.terminate {
      assert EventsAt(len, u, i)[..|x + a|] == x + a;
    } else {
      assert EventsAt(len, u, i) == x + a;
    }
  }

  lemma SameAccess(u: Unit, u': Unit, i: Inputs)
    requires u'.dmiReq1 == u.dmiReq1 && u'.readLog == u.readLog && u'.readLog1 == u.readLog1
    ensures AccessAt(u', i) == AccessAt(u, i)
  {}

  // ---------------------------------------------------------------- behind the transport

  const W: Widths := Widths(8, 64)

  /** Transport, slave outputs, debug unit, command history and what the unit has performed. */
  datatype Board = Board(d: Dtm, s: Slave, u: Unit, h: History, ev: seq<Event>)

  /** Either clock edge, or a change of the outputs the transport sees. */
  datatype Move = Tck(p: Pins) | Sys(core: Reports) | Drive(s: Slave)

  /** The unit answers to the addresses with its own upper half. */
  predicate Mine(page: Bits, addr: Bits) { |addr| == 8 && addr[4..] == page }

  function InputsOf(page: Bits, d: Dtm, core: Reports): Inputs
    requires Sized(W, d)
  {
    var addr := AddrOf(W, d.request);
    Inputs(d.req1 && Mine(page, addr), OpOf(d.request) == WR, addr[..4], DataOf(W, d.request), core)
  }

  function SysMove(page: Bits, len: nat, b: Board, core: Reports): Board
    requires len > 0 && Sized(W, b.d)
  {
    var i := InputsOf(page, b.d, core);
    Board(SysStep(b.d), b.s, NextUnit(len, b.u, i), SysHistory(W, b.d, b.h), b.ev + EventsAt(len, b.u, i))
  }

  function Apply(page: Bits, len: nat, b: Board, m: Move): Board
    requires len > 0 && Sized(W, b.d)
  {
    match m
    case Tck(p) => b.(d := TckStep(W, b.d, p, b.s), h := TckHistory(W, b.d, p, b.h))
    case Sys(core) => SysMove(page, len, b, core)
    case Drive(s) => b.(s := s)
  }

  predicate MoveOk(b: Board, m: Move) { m.Drive? ==> |m.s.din| == 64 && AckOk(b.d, b.s.ack, m.s.ack) }

  // ---------------------------------------------------------------- each command once

  /** What a transaction makes the unit do. */
  function Effects(page: Bits, c: Cmd): seq<Event> {
    if !Mine(page, c.addr) then []
    else
      [if c.op == WR then Write(c.addr[..4], c.data) else Read(c.addr[..4])]
      + if c.addr[..4] == LOG_DATA then [Advance] else []
  }

  function Expected(page: Bits, cs: seq<Cmd>): seq<Event> {
    if cs == [] then [] else Expected(page, cs[..|cs| - 1]) + Effects(page, Last(cs))
  }

  /** Events that came over the link. */
  function Accesses(es: seq<Event>): seq<Event> {
    if es == [] then []
    else Accesses(es[..|es| - 1]) + if Last(es).Terminate? || Last(es).Expire? then [] else [Last(es)]
  }

  predicate OnLogData(page: Bits, c: Cmd) { Mine(page, c.addr) && c.addr[..4] == LOG_DATA }

  /** What the newest transaction still has to do. */
  function Due(page: Bits, b: Board): seq<Event>
  {
    if b.h.started == [] then []
    else
      var c := Last(b.h.started);
      if b.d.req1 && !b.u.dmiReq1 then Effects(page, c)
      else if OnLogData(page, c) && (b.d.req1 || b.u.readLog || b.u.readLog1) then [Advance]
      else []
  }

  /** The edge detector and the log data delay line follow the newest transaction, and a request that
      has just dropped does not come back at once. */
  ghost predicate DelayOk(page: Bits, b: Board) {
    && (b.u.dmiReq1 && !b.d.req1 ==> !b.d.req0)
    && (b.h.started == [] ==> !b.u.dmiReq1 && !b.u.readLog && !b.u.readLog1)
    && (b.u.dmiReq1 ==> Mine(page, Last(b.h.started).addr))
    && b.u.readLog == (b.u.dmiReq1 && OnLogData(page, Last(b.h.started)))
    && (b.u.readLog1 ==> OnLogData(page, Last(b.h.started)))
    && (b.d.req1 && b.u.readLog1 ==> b.u.readLog)
  }

  ghost predicate BoardOk(page: Bits, len: nat, r0: Regs, b: Board)
    requires len > 0
  {
    && RingOk(W, b.d, b.s.ack, b.h) && |b.s.din| == 64 && DelayOk(page, b)
    && Accesses(b.ev) + Due(page, b) == Expected(page, b.h.started)
    && b.u.regs == PerformAll(len, r0, b.ev)
  }

  lemma {:induction false} PerformAppend(len: nat, r: Regs, es: seq<Event>, fs: seq<Event>)
    requires len > 0
    ensures PerformAll(len, r, es + fs) == PerformAll(len, PerformAll(len, r, es), fs)
  {
    if fs == [] {
      assert es + fs == es;
    } else {
      PerformAppend(len, r, es, fs[..|fs| - 1]);
      assert (es + fs)[..|es + fs| - 1] == es + fs[..|fs| - 1];
    }
  }

  lemma {:induction false} AccessesAppend(es: seq<Event>, fs: seq<Event>)
    ensures Accesses(es + fs) == Accesses(es) + Accesses(fs)
  {
    if fs == [] {
      assert es + fs == es;
    } else {
      AccessesAppend(es, fs[..|fs| - 1]);
      assert (es + fs)[..|es + fs| - 1] == es + fs[..|fs| - 1];
    }
  }

  lemma AccessesStep(len: nat, b: Board, i: Inputs)
    ensures Accesses(b.ev + EventsAt(len, b.u, i)) == Accesses(b.ev) + AccessAt(b.u, i)
  {
    var x, a := ExpiryAt(len, b.u.delay, i.core), AccessAt(b.u, i);
    var t: seq<Event> := if i.core.terminate then [Terminate] else [];
    AccessesAppend(b.ev, EventsAt(len, b.u, i));
    AccessesAppend(x + a, t);
    AccessesAppend(x, a);
    assert forall e: Event :: [e][..0] == [];
  }

  lemma SysDelay(page: Bits, len: nat, b: Board, core: Reports)
    requires len > 0 && RingOk(W, b.d, b.s.ack, b.h) && DelayOk(page, b)
    ensures DelayOk(page, SysMove(page, len, b, core))
  {}

  /** Dues of the transaction that starts at a system clock edge, if any. */
  function NewEffects(page: Bits, d: Dtm): seq<Event>
    requires Sized(W, d)
  { if d.req0 && !d.req1 then Effects(page, CmdOf(W, d.request)) else [] }

  lemma ExpectedStep(page: Bits, b: Board)
    requires Sized(W, b.d)
    ensures Expected(page, SysHistory(W, b.d, b.h).started) == Expected(page, b.h.started) + NewEffects(page, b.d)
  {
    if b.d.req0 && !b.d.req1 { assert SysHistory(W, b.d, b.h).started[..|b.h.started|] == b.h.started; }
  }

  /** At a system clock edge the unit does exactly what is taken off the dues. */
  lemma SysDue(page: Bits, len: nat, b: Board, core: Reports)
    requires len > 0 && RingOk(W, b.d, b.s.ack, b.h) && DelayOk(page, b)
    ensures var b' := SysMove(page, len, b, core);
      AccessAt(b.u, InputsOf(page, b.d, core)) + Due(page, b')
      == Due(page, b) + NewEffects(page, b.d)
  {
    SysRing(W, b.d, b.s.ack, b.h);
    SysDelay(page, len, b, core);
  }

  lemma SysAccesses(page: Bits, len: nat, b: Board, core: Reports)
    requires len > 0 && RingOk(W, b.d, b.s.ack, b.h) && DelayOk(page, b)
    requires Accesses(b.ev) + Due(page, b) == Expected(page, b.h.started)
    ensures var b' := SysMove(page, len, b, core);
      Accesses(b'.ev) + Due(page, b') == Expected(page, b'.h.started)
  {
    var i, b' := InputsOf(page, b.d, core), SysMove(page, len, b, core);
    SysDue(page, len, b, core);
    AccessesStep(len, b, i);
    ExpectedStep(page, b);
    Regroup(Accesses(b.ev), AccessAt(b.u, i), Due(page, b'), Due(page, b), NewEffects(page, b.d));
  }

  lemma Regroup<T>(x: seq<T>, a: seq<T>, d': seq<T>, d: seq<T>, more: seq<T>)
    requires a + d' == d + more
    ensures (x + a) + d' == (x + d) + more
  {
    assert (x + a) + d' == x + (a + d');
    assert (x + d) + more == x + (d + more);
  }

  lemma SysOk(page: Bits, len: nat, r0: Regs, b: Board, core: Reports)
    requires len > 0 && BoardOk(page, len, r0, b)
    ensures BoardOk(page, len, r0, SysMove(page, len, b, core))
  {
    SysRing(W, b.d, b.s.ack, b.h);
    SysDelay(page, len, b, core);
    SysAccesses(page, len, b, core);
    PerformAppend(len, r0, b.ev, EventsAt(len, b.u, InputsOf(page, b.d, core)));
  }

  lemma ApplyOk(page: Bits, len: nat, r0: Regs, b: Board, m: Move)
    requires len > 0 && BoardOk(page, len, r0, b) && MoveOk(b, m)
    ensures BoardOk(page, len, r0, Apply(page, len, b, m))
  {
    match m
    case Tck(p) => TckRing(W, b.d, p, b.s, b.h);
    case Sys(core) => SysOk(page, len, r0, b, core);
    case Drive(s) => SlaveRing(W, b.d, b.s.ack, s.ack, b.h);
  }

  // ---------------------------------------------------------------- whole runs

  predicate RunOk(page: Bits, len: nat, b: Board, ms: seq<Move>)
    requires len > 0
    decreases |ms|, 0
  {
    && Sized(W, b.d)
    && (ms != [] ==>
          && RunOk(page, len, b, ms[..|ms| - 1])
          && Sized(W, Run(page, len, b, ms[..|ms| - 1]).d)
          && MoveOk(Run(page, len, b, ms[..|ms| - 1]), Last(ms)))
  }

  function Run(page: Bits, len: nat, b: Board, ms: seq<Move>): Board
    requires len > 0 && RunOk(page, len, b, ms)
    decreases |ms|, 1
  { if ms == [] then b else Apply(page, len, Run(page, len, b, ms[..|ms| - 1]), Last(ms)) }

  /** Joint reset of both clock domains. */
  predicate Starts(b: Board) {
    && Sized(W, b.d) && Quiet(b.d, b.s.ack) && |b.s.din| == 64
    && !b.u.dmiReq1 && !b.u.readLog && !b.u.readLog1
    && b.h == History([], [], []) && b.ev == []
  }

  lemma {:induction false} RunKeeps(page: Bits, len: nat, b: Board, ms: seq<Move>)
    requires len > 0 && Starts(b) && RunOk(page, len, b, ms)
    ensures BoardOk(page, len, b.u.regs, Run(page, len, b, ms))
  {
    if ms == [] {
    } else {
      RunKeeps(page, len, b, ms[..|ms| - 1]);
      ApplyOk(page, len, b.u.regs, Run(page, len, b, ms[..|ms| - 1]), Last(ms));
    }
  }

  /** At any clock ratio the debug unit performs, in order and each once, the accesses of the commands
      the transport has accepted, short only of what the newest one still has to do; its registers are
      what those accesses make of their reset values. */
  lemma EachCommandActsOnce(page: Bits, len: nat, b: Board, ms: seq<Move>)
    requires len > 0 && Starts(b) && RunOk(page, len, b, ms)
    ensures var e := Run(page, len, b, ms);
      && Accesses(e.ev) + Due(page, e) == Expected(page, e.h.started)
      && e.h.started <= e.h.accepted && |e.h.accepted| <= |e.h.started| + 1
      && (Quiet(e.d, e.s.ack) ==> e.h.started == e.h.accepted && Due(page, e) <= [Advance])
      && (Quiet(e.d, e.s.ack) && Due(page, e) == [] ==> Accesses(e.ev) == Expected(page, e.h.accepted))
      && e.u.regs == PerformAll(len, b.u.regs, e.ev)
  {
    RunKeeps(page, len, b, ms);
  }

  /** Two system clock edges settle an idle link. */
  lemma SettlesInTwo(page: Bits, len: nat, r0: Regs, b: Board, t: Reports, t': Reports)
    requires len > 0 && BoardOk(page, len, r0, b) && Quiet(b.d, b.s.ack)
    ensures Due(page, SysMove(page, len, SysMove(page, len, b, t), t')) == []
  {
    var b1 := SysMove(page, len, b, t);
    SysOk(page, len, r0, b, t);
    SysOk(page, len, r0, b1, t');
  }

  // ---------------------------------------------------------------- walking the log

  predicate SetsLog(page: Bits, c: Cmd) { Mine(page, c.addr) && c.addr[..4] == LOG_ADDR && c.op == WR }

  /** The log address the commands leave: a write sets it, an access to the data register steps it. */
  function LogAfter(page: Bits, len: nat, a: LogAddr, cs: seq<Cmd>): LogAddr
    requires len > 0
  {
    if cs == [] then a
    else
      var c, b := Last(cs), LogAfter(page, len, a, cs[..|cs| - 1]);
      if SetsLog(page, c) then SplitAddr(len, Value(Low(c.data, 32)))
      else if OnLogData(page, c) then Advanced(len, b)
      else b
  }

  /** Neither termination nor a trigger touches the log address, and no other register decides it. */
  lemma LogOfEvent(len: nat, r: Regs, r': Regs, e: Event)
    requires len > 0 && r.logAddr == r'.logAddr
    ensures Perform(len, r, e).logAddr == Perform(len, r', e).logAddr
    ensures e.Terminate? || e.Expire? ==> Perform(len, r, e).logAddr == r.logAddr
  {}

  lemma {:induction false} LogOfAccesses(len: nat, r: Regs, es: seq<Event>)
    requires len > 0
    ensures PerformAll(len, r, es).logAddr == PerformAll(len, r, Accesses(es)).logAddr
  {
    hide Perform;
    if es == [] {
    } else {
      var p, e := es[..|es| - 1], Last(es);
      LogOfAccesses(len, r, p);
      LogOfEvent(len, PerformAll(len, r, p), PerformAll(len, r, Accesses(p)), e);
      if !e.Terminate? && !e.Expire? {
        var a := Accesses(es);
        assert a[..|a| - 1] == Accesses(p) && Last(a) == e;
      } else {
        assert Accesses(es) == Accesses(p);
      }
    }
  }

  lemma LogOfEffects(page: Bits, len: nat, r: Regs, c: Cmd)
    requires len > 0
    ensures PerformAll(len, r, Effects(page, c)).logAddr == LogAfter(page, len, r.logAddr, [c])
  {
    var fs := Effects(page, c);
    assert [c][..0] == [];
    if fs != [] {
      assert fs[..1] == [fs[0]] && fs[..1][..0] == [];
      assert PerformAll(len, r, fs[..1]) == Perform(len, r, fs[0]);
    }
  }

  lemma {:induction false} LogOfExpected(page: Bits, len: nat, r: Regs, cs: seq<Cmd>)
    requires len > 0
    ensures PerformAll(len, r, Expected(page, cs)).logAddr == LogAfter(page, len, r.logAddr, cs)
  {
    if cs == [] {
    } else {
      var p, c := cs[..|cs| - 1], Last(cs);
      LogOfExpected(page, len, r, p);
      PerformAppend(len, r, Expected(page, p), Effects(page, c));
      LogOfEffects(page, len, PerformAll(len, r, Expected(page, p)), c);
      assert [c][..0] == [];
    }
  }

  /** In every run at any clock ratio, when nothing is owed, the log address is what the accepted
      commands make of it. */
  lemma LogFollowsCommands(page: Bits, len: nat, b: Board, ms: seq<Move>)
    requires len > 0 && Starts(b) && RunOk(page, len, b, ms)
    ensures var e := Run(page, len, b, ms);
      Quiet(e.d, e.s.ack) && Due(page, e) == [] ==>
        e.u.regs.logAddr == LogAfter(page, len, b.u.regs.logAddr, e.h.accepted)
  {
    EachCommandActsOnce(page, len, b, ms);
    var e := Run(page, len, b, ms);
    LogOfAccesses(len, b.u.regs, e.ev);
    LogOfExpected(page, len, b.u.regs, e.h.accepted);
  }

  function DataAccesses(page: Bits, cs: seq<Cmd>): nat {
    if cs == [] then 0 else DataAccesses(page, cs[..|cs| - 1]) + One(OnLogData(page, Last(cs)))
  }

  /** Ring position p after n more steps. */
  function Around(len: nat, p: nat, n: nat): nat
    requires len > 0
  { (p + n) % (4 * len) }

  lemma AroundStep(len: nat, p: nat, n: nat)
    requires len > 0
    ensures p < 4 * len ==> Around(len, p, 0) == p
    ensures Around(len, p, n + 1) == if Around(len, p, n) + 1 == 4 * len then 0 else Around(len, p, n) + 1
  {
    var q := 4 * len;
    var j, m := (p + n) / q, (p + n) % q;
    if p < q { ModUnique(q, 0, p, p); }
    if m + 1 < q { ModUnique(q, j, m + 1, p + n + 1); } else { ModUnique(q, j + 1, 0, p + n + 1); }
  }

  /** Without a new log address, the accesses to the data register move the position on by their number
      within the ring of four doublewords for each log entry, and leave the bits above alone. */
  lemma {:induction false} LogWalk(page: Bits, len: nat, a: LogAddr, cs: seq<Cmd>)
    requires len > 0 && a.pos < 4 * len && forall c <- cs :: !SetsLog(page, c)
    ensures LogAfter(page, len, a, cs) == LogAddr(a.high, Around(len, a.pos, DataAccesses(page, cs)))
  {
    if cs == [] {
      AroundStep(len, a.pos, 0);
    } else {
      LogWalk(page, len, a, cs[..|cs| - 1]);
      AroundStep(len, a.pos, DataAccesses(page, cs[..|cs| - 1]));
    }
  }

  lemma {:induction false} LogSplits(page: Bits, len: nat, a: LogAddr, cs: seq<Cmd>, ds: seq<Cmd>)
    requires len > 0
    ensures LogAfter(page, len, a, cs + ds) == LogAfter(page, len, LogAfter(page, len, a, cs), ds)
  {
    if ds == [] {
      assert cs + ds == cs;
    } else {
      LogSplits(page, len, a, cs, ds[..|ds| - 1]);
      assert (cs + ds)[..|cs + ds| - 1] == cs + ds[..|ds| - 1];
    }
  }

  /** In every settled run the log position is the last address written plus the number of accesses to
      the data register accepted since, modulo four times the log length. */
  lemma LogPosition(page: Bits, len: nat, b: Board, ms: seq<Move>, before: seq<Cmd>, c: Cmd, since: seq<Cmd>)
    requires len > 0 && Starts(b) && RunOk(page, len, b, ms)
    requires var e := Run(page, len, b, ms);
      Quiet(e.d, e.s.ack) && Due(page, e) == [] && e.h.accepted == before + [c] + since
    requires SetsLog(page, c) && forall x <- since :: !SetsLog(page, x)
    ensures var v, a := Value(Low(c.data, 32)), Run(page, len, b, ms).u.regs.logAddr;
      a == LogAddr(v / (4 * len), Around(len, v % (4 * len), DataAccesses(page, since)))
  {
    LogFollowsCommands(page, len, b, ms);
    var a0 := b.u.regs.logAddr;
    LogSplits(page, len, a0, before + [c], since);
    assert (before + [c])[..|before|] == before;
    LogWalk(page, len, SplitAddr(len, Value(Low(c.data, 32))), since);
  }
}
