/** Instruction issue: the tag scoreboard of the control unit and the operand capture of the second
    decode stage, connected to an in-order pipeline that completes instructions, offers results on
    three bypass buses and writes the register file. */
module Scoreboard {

  const TAG_COUNT := 4
  const PORTS := 3

  /** One scoreboard entry. */
  datatype TagReg = TagReg(valid: bool, wrGpr: bool, reg: nat, recent: bool)

  /** A register operand or, when not `valid`, a constant. */
  datatype Operand = Operand(valid: bool, reg: nat, imm: int)

  type Operands = s: seq<Operand> | |s| == PORTS witness [Operand(false, 0, 0), Operand(false, 0, 0), Operand(false, 0, 0)]
  type Values = s: seq<int> | |s| == PORTS witness [0, 0, 0]
  type TagRegs = s: seq<TagReg> | |s| == TAG_COUNT
    witness [TagReg(false, false, 0, false), TagReg(false, false, 0, false), TagReg(false, false, 0, false), TagReg(false, false, 0, false)]

  /** A decoded instruction and the value it will write. */
  datatype Instr = Instr(srcs: Operands, wr: bool, dst: nat, result: int)

  /** The decode output register: an issued instruction (`valid`) or one still waiting (`busy`). */
  datatype Dc2 = Dc2(valid: bool, busy: bool, instr: Instr, data: Values)

  datatype State = State(tags: TagRegs, curr: nat, dc2: Dc2)

  /** An issued instruction that has not completed. */
  datatype Flight = Flight(tag: nat, wr: bool, reg: nat, value: int)

  datatype Bypass = NoBypass | Bypass(tag: nat, reg: nat, value: int)

  /** Inputs of a cycle.  `hold` stands for the CR, overflow and serialisation hazards; `ex1`, `ex2`
      and `wb` are the bypass buses; `regs` is what the register file returns. */
  datatype Input = Input(dValid: bool, instr: Instr, flush: bool, busyIn: bool, hold: bool,
                         complete: bool, completeTag: nat, ex1: Bypass, ex2: Bypass, wb: Bypass, regs: map<nat, int>)

  function RegOf(m: map<nat, int>, r: nat): int { if r in m then m[r] else 0 }

  // ---------------------------------------------------------------- hazards and bypass selection

  predicate TagMatch(b: Bypass, tag: nat) { b.Bypass? && b.tag == tag }

  /** The entry is waited for by an operand read. */
  predicate Wanted(t: TagReg, o: Operand) { t.valid && t.recent && t.reg == o.reg && o.valid }

  /** The entry's result is available on a bypass bus or completes in this cycle. */
  predicate Available(ex1Bypass: bool, tag: nat, i: Input) {
    (ex1Bypass && (TagMatch(i.ex1, tag) || TagMatch(i.ex2, tag))) || (i.complete && i.completeTag == tag)
  }

  /** The scan over the scoreboard: the last wanted entry decides. */
  function Stalls(ex1Bypass: bool, tags: TagRegs, o: Operand, i: Input, n: nat): bool
    requires n <= TAG_COUNT
  {
    if n == 0 then false
    else if Wanted(tags[n - 1], o) then !Available(ex1Bypass, n - 1, i)
    else Stalls(ex1Bypass, tags, o, i, n - 1)
  }

  /** The same scan as the loop the control unit performs. */
  method ScanTags(ex1Bypass: bool, tags: TagRegs, o: Operand, i: Input) returns (stall: bool)
    ensures stall == Stalls(ex1Bypass, tags, o, i, TAG_COUNT)
  {
    stall := false;
    for n := 0 to TAG_COUNT
      invariant stall == Stalls(ex1Bypass, tags, o, i, n)
    {
      if Wanted(tags[n], o) {
        stall := true;
        if Available(ex1Bypass, n, i) { stall := false; }
      }
    }
  }

  /** The bypass bus selected for a register: the first of the three that carries it. */
  function Select(ex1Bypass: bool, reg: nat, i: Input): Bypass {
    if ex1Bypass && i.ex1.Bypass? && i.ex1.reg == reg then i.ex1
    else if ex1Bypass && i.ex2.Bypass? && i.ex2.reg == reg then i.ex2
    else if i.wb.Bypass? && i.wb.reg == reg then i.wb
    else NoBypass
  }

  // ---------------------------------------------------------------- decode and issue

  predicate Deferred(s: State, i: Input) { s.dc2.valid && i.busyIn }

  /** The instruction in decode: the one held in the output register, else the incoming one. */
  function Decoding(s: State, i: Input): Instr { if s.dc2.busy then s.dc2.instr else i.instr }

  predicate GprStall(ex1Bypass: bool, s: State, i: Input) {
    exists p | 0 <= p < PORTS :: Stalls(ex1Bypass, s.tags, Decoding(s, i).srcs[p], i, TAG_COUNT)
  }

  predicate ValidOut(ex1Bypass: bool, s: State, i: Input) {
    (i.dValid || s.dc2.busy) && !i.flush && !GprStall(ex1Bypass, s, i) && !i.hold
  }

  /** An instruction gets its tag and goes to execution. */
  predicate Issues(ex1Bypass: bool, s: State, i: Input) { ValidOut(ex1Bypass, s, i) && !Deferred(s, i) }

  function Capture(ex1Bypass: bool, s: State, i: Input, p: nat): int
    requires p < PORTS
  {
    var o := Decoding(s, i).srcs[p];
    var b := Select(ex1Bypass, o.reg, i);
    if o.valid && b.Bypass? then b.value
    else if s.dc2.busy then s.dc2.data[p]
    else if o.valid then RegOf(i.regs, o.reg) else o.imm
  }

  function Captured(ex1Bypass: bool, s: State, i: Input): Values {
    [Capture(ex1Bypass, s, i, 0), Capture(ex1Bypass, s, i, 1), Capture(ex1Bypass, s, i, 2)]
  }

  function NextTag(ex1Bypass: bool, s: State, i: Input, n: nat): TagReg
    requires n < TAG_COUNT
  {
    var t := s.tags[n];
    var d := Decoding(s, i);
    var issues := Issues(ex1Bypass, s, i);
    if i.flush then t.(valid := false, wrGpr := false)
    else if issues && n == s.curr then TagReg(true, d.wr, d.dst, d.wr)
    else
      var t1 := if i.complete && n == i.completeTag then t.(valid := false, wrGpr := false) else t;
      if issues && d.wr && t.reg == d.dst then t1.(recent := false) else t1
  }

  function NextDc2(ex1Bypass: bool, s: State, i: Input): Dc2 {
    if i.flush then Dc2(false, false, s.dc2.instr, s.dc2.data)
    else if Deferred(s, i) then s.dc2
    else
      var v := ValidOut(ex1Bypass, s, i);
      Dc2(v, (i.dValid || s.dc2.busy) && !v, Decoding(s, i), Captured(ex1Bypass, s, i))
  }

  function Step(ex1Bypass: bool, s: State, i: Input): State {
    State([NextTag(ex1Bypass, s, i, 0), NextTag(ex1Bypass, s, i, 1), NextTag(ex1Bypass, s, i, 2), NextTag(ex1Bypass, s, i, 3)],
          if Issues(ex1Bypass, s, i) then (s.curr + 1) % TAG_COUNT else s.curr,
          NextDc2(ex1Bypass, s, i))
  }

  // ---------------------------------------------------------------- the pipeline behind decode

  /** Outstanding instructions, oldest first; the committed registers; every instruction issued and
      not flushed, in program order. */
  datatype Pipe = Pipe(q: seq<Flight>, regs: map<nat, int>, hist: seq<Flight>)

  /** The bus carries the result of an outstanding instruction that writes a register. */
  ghost predicate Carries(b: Bypass, q: seq<Flight>, k: nat) {
    k < |q| && q[k].wr && b == Bypass(q[k].tag, q[k].reg, q[k].value)
  }

  ghost predicate OnBus(b: Bypass, q: seq<Flight>, lo: nat) {
    b.Bypass? ==> exists k: nat :: lo <= k && Carries(b, q, k)
  }

  /** What the pipeline promises.  Completion is in order, the writeback bus shows the completing
      instruction, the execute buses show outstanding ones, execute 1 the younger; no more instructions are
      outstanding than there are tags; the register file returns committed values. */
  ghost predicate EnvOk(ex1Bypass: bool, s: State, p: Pipe, i: Input) {
    && (i.complete ==> |p.q| > 0 && i.completeTag == p.q[0].tag)
    && (i.wb == if i.complete && p.q[0].wr then Bypass(p.q[0].tag, p.q[0].reg, p.q[0].value) else NoBypass)
    && OnBus(i.ex2, p.q, if i.complete then 1 else 0)
    && OnBus(i.ex1, p.q, if i.complete then 1 else 0)
    && (i.ex1.Bypass? && i.ex2.Bypass? ==> exists j: nat, k: nat :: k < j && Carries(i.ex1, p.q, j) && Carries(i.ex2, p.q, k))
    && (Issues(ex1Bypass, s, i) ==> |p.q| - (if i.complete then 1 else 0) < TAG_COUNT)
    && i.regs == p.regs
  }

  function NextRegs(p: Pipe, i: Input): map<nat, int> {
    if i.complete && |p.q| > 0 && p.q[0].wr then p.regs[p.q[0].reg := p.q[0].value] else p.regs
  }

  function Remaining(p: Pipe, i: Input): seq<Flight> { if i.complete && |p.q| > 0 then p.q[1..] else p.q }

  function NextPipe(ex1Bypass: bool, s: State, p: Pipe, i: Input): Pipe {
    var rest := Remaining(p, i);
    var d := Decoding(s, i);
    if i.flush then Pipe([], NextRegs(p, i), if |rest| <= |p.hist| then p.hist[..|p.hist| - |rest|] else [])
    else if Issues(ex1Bypass, s, i) then
      var f := Flight(s.curr, d.wr, d.dst, d.result);
      Pipe(rest + [f], NextRegs(p, i), p.hist + [f])
    else Pipe(rest, NextRegs(p, i), p.hist)
  }

  // ---------------------------------------------------------------- invariant

  ghost predicate WritesReg(f: Flight, r: nat) { f.wr && f.reg == r }

  /** `k` is the youngest outstanding writer of register `r`. */
  ghost predicate Youngest(q: seq<Flight>, k: nat, r: nat) {
    k < |q| && WritesReg(q[k], r) && forall m | k < m < |q| :: !WritesReg(q[m], r)
  }

  ghost predicate NoWriter(q: seq<Flight>, r: nat) {
    forall m | 0 <= m < |q| :: !WritesReg(q[m], r)
  }

  /** The scoreboard shows exactly the outstanding instructions, and `recent` marks youngest writers. */
  ghost predicate BoardOk(tags: TagRegs, q: seq<Flight>) {
    TagsOk(tags, q) && RecentOk(tags, q)
  }

  ghost predicate HasTag(q: seq<Flight>, n: nat) { exists k :: 0 <= k < |q| && q[k].tag == n }

  ghost predicate TagsOk(tags: TagRegs, q: seq<Flight>) {
    && (forall k | 0 <= k < |q| :: q[k].tag < TAG_COUNT && tags[q[k].tag].valid && tags[q[k].tag].reg == q[k].reg)
    && (forall j, k | 0 <= j < k < |q| :: q[j].tag != q[k].tag)
    && (forall n | 0 <= n < TAG_COUNT && tags[n].valid :: HasTag(q, n))
  }

  ghost predicate RecentOk(tags: TagRegs, q: seq<Flight>) {
    forall k | 0 <= k < |q| && q[k].tag < TAG_COUNT :: tags[q[k].tag].recent <==> Youngest(q, k, q[k].reg)
  }

  /** While an instruction waits it holds its constants, and every operand whose register nobody
      outstanding writes has been captured. */
  ghost predicate WaitOk(d: Dc2, p: Pipe) {
    d.busy ==>
      && !d.valid
      && (forall n | 0 <= n < PORTS && !d.instr.srcs[n].valid :: d.data[n] == d.instr.srcs[n].imm)
      && forall n | 0 <= n < PORTS && d.instr.srcs[n].valid && NoWriter(p.q, d.instr.srcs[n].reg) ::
           d.data[n] == RegOf(p.regs, d.instr.srcs[n].reg)
  }

  /** The value the youngest writer in a program gives a register. */
  ghost function LastWrite(init: map<nat, int>, hist: seq<Flight>, r: nat): int {
    if hist == [] then RegOf(init, r)
    else if WritesReg(hist[|hist| - 1], r) then hist[|hist| - 1].value
    else LastWrite(init, hist[..|hist| - 1], r)
  }

  /** The program is the completed instructions followed by the outstanding ones. */
  ghost predicate HistOk(init: map<nat, int>, p: Pipe) {
    && |p.q| <= |p.hist| && p.hist[|p.hist| - |p.q|..] == p.q
    && forall r: nat :: RegOf(p.regs, r) == LastWrite(init, p.hist[..|p.hist| - |p.q|], r)
  }

  /** Tags are given out in turn. */
  ghost predicate InTurn(q: seq<Flight>, curr: nat) {
    |q| <= TAG_COUNT && forall k | 0 <= k < |q| :: q[k].tag == (curr + TAG_COUNT - (|q| - k)) % TAG_COUNT
  }

  ghost predicate Inv(init: map<nat, int>, s: State, p: Pipe) {
    s.curr < TAG_COUNT && InTurn(p.q, s.curr) && BoardOk(s.tags, p.q) && WaitOk(s.dc2, p) && HistOk(init, p)
  }

  // ---------------------------------------------------------------- operands are right

  lemma StallsOne(ex1Bypass: bool, tags: TagRegs, o: Operand, i: Input, n: nat, t: nat)
    requires t < n <= TAG_COUNT && Wanted(tags[t], o)
    requires forall m | 0 <= m < TAG_COUNT && Wanted(tags[m], o) :: m == t
    ensures Stalls(ex1Bypass, tags, o, i, n) == !Available(ex1Bypass, t, i)
  {}

  /** Not stalled on an operand with an outstanding writer: the youngest writer is on a bus now. */
  lemma YoungestAvailable(ex1Bypass: bool, s: State, p: Pipe, i: Input, o: Operand, k: nat)
    requires BoardOk(s.tags, p.q) && EnvOk(ex1Bypass, s, p, i) && o.valid && Youngest(p.q, k, o.reg)
    requires !Stalls(ex1Bypass, s.tags, o, i, TAG_COUNT)
    ensures Available(ex1Bypass, p.q[k].tag, i)
  {
    forall m | 0 <= m < TAG_COUNT && Wanted(s.tags[m], o) ensures m == p.q[k].tag {
      var j :| 0 <= j < |p.q| && p.q[j].tag == m;
      assert Youngest(p.q, j, p.q[j].reg);
    }
    StallsOne(ex1Bypass, s.tags, o, i, TAG_COUNT, p.q[k].tag);
  }

  /** If the youngest writer of a register is on a bus, that bus is the one selected. */
  lemma SelectsYoungest(ex1Bypass: bool, s: State, p: Pipe, i: Input, r: nat, k: nat)
    requires BoardOk(s.tags, p.q) && EnvOk(ex1Bypass, s, p, i) && Youngest(p.q, k, r)
    requires Available(ex1Bypass, p.q[k].tag, i)
    ensures Select(ex1Bypass, r, i).Bypass? && Select(ex1Bypass, r, i).value == p.q[k].value
  {}

  /** If nobody outstanding writes a register, no bus offers it. */
  lemma SelectsNothing(ex1Bypass: bool, s: State, p: Pipe, i: Input, r: nat)
    requires EnvOk(ex1Bypass, s, p, i) && NoWriter(p.q, r)
    ensures Select(ex1Bypass, r, i).NoBypass?
  {}

  lemma FindYoungest(q: seq<Flight>, r: nat) returns (k: nat)
    requires !NoWriter(q, r)
    ensures Youngest(q, k, r)
  {
    k := |q| - 1;
    while !WritesReg(q[k], r)
      invariant k < |q| && forall m | k < m < |q| :: !WritesReg(q[m], r)
      decreases k
    {
      k := k - 1;
    }
  }

  lemma LastWriteSplit(init: map<nat, int>, hist: seq<Flight>, q: seq<Flight>, r: nat)
    ensures NoWriter(q, r) ==> LastWrite(init, hist + q, r) == LastWrite(init, hist, r)
    ensures forall k: nat | Youngest(q, k, r) :: LastWrite(init, hist + q, r) == q[k].value
  {
    if q == [] {
      assert hist + q == hist;
    } else {
      assert (hist + q)[..|hist + q| - 1] == hist + q[..|q| - 1];
      LastWriteSplit(init, hist, q[..|q| - 1], r);
      forall k: nat | Youngest(q, k, r) ensures LastWrite(init, hist + q, r) == q[k].value {
        if k < |q| - 1 { assert Youngest(q[..|q| - 1], k, r); }
      }
    }
  }

  lemma OperandReady(ex1Bypass: bool, s: State, i: Input, n: nat)
    requires Issues(ex1Bypass, s, i) && n < PORTS
    ensures !Stalls(ex1Bypass, s.tags, Decoding(s, i).srcs[n], i, TAG_COUNT)
    ensures Captured(ex1Bypass, s, i)[n] == Capture(ex1Bypass, s, i, n)
  {}

  /** What an operand of an instruction should be: its constant, or the result of the youngest earlier
      writer of its register. */
  ghost function OperandValue(init: map<nat, int>, hist: seq<Flight>, o: Operand): int {
    if o.valid then LastWrite(init, hist, o.reg) else o.imm
  }

  /** The operand an issuing instruction gets is its constant or the result of the youngest earlier writer. */
  lemma IssuedOperand(ex1Bypass: bool, init: map<nat, int>, s: State, p: Pipe, i: Input, n: nat)
    requires Inv(init, s, p) && EnvOk(ex1Bypass, s, p, i) && Issues(ex1Bypass, s, i) && n < PORTS
    ensures Captured(ex1Bypass, s, i)[n] == OperandValue(init, p.hist, Decoding(s, i).srcs[n])
  {
    hide Stalls, Issues, LastWrite, NoWriter, Youngest, BoardOk, Select, Captured;
    OperandReady(ex1Bypass, s, i, n);
    var o := Decoding(s, i).srcs[n];
    if o.valid {
      var done := p.hist[..|p.hist| - |p.q|];
      assert p.hist == done + p.q;
      LastWriteSplit(init, done, p.q, o.reg);
      if NoWriter(p.q, o.reg) {
        SelectsNothing(ex1Bypass, s, p, i, o.reg);
      } else {
        var k := FindYoungest(p.q, o.reg);
        YoungestAvailable(ex1Bypass, s, p, i, o, k);
        SelectsYoungest(ex1Bypass, s, p, i, o.reg, k);
      }
    }
  }

  /** The result of an outstanding instruction can be had now: it is on an execute bus, if those are
      built, or the instruction completes. */
  ghost predicate AtHand(ex1Bypass: bool, p: Pipe, i: Input, k: nat) {
    (ex1Bypass && (Carries(i.ex1, p.q, k) || Carries(i.ex2, p.q, k))) || (i.complete && k == 0)
  }

  lemma AvailableMeans(ex1Bypass: bool, s: State, p: Pipe, i: Input, k: nat)
    requires BoardOk(s.tags, p.q) && EnvOk(ex1Bypass, s, p, i) && k < |p.q|
    ensures Available(ex1Bypass, p.q[k].tag, i) <==> AtHand(ex1Bypass, p, i, k)
  {
    hide RecentOk, Issues;
    if TagMatch(i.ex1, p.q[k].tag) { BusTag(i.ex1, p.q, k, s.tags); }
    if TagMatch(i.ex2, p.q[k].tag) { BusTag(i.ex2, p.q, k, s.tags); }
    if i.complete && i.completeTag == p.q[k].tag { SameTag(s.tags, p.q, 0, k); }
  }

  lemma BusTag(b: Bypass, q: seq<Flight>, k: nat, tags: TagRegs)
    requires TagsOk(tags, q) && k < |q| && TagMatch(b, q[k].tag) && OnBus(b, q, 0)
    ensures Carries(b, q, k)
  {
    var j: nat :| Carries(b, q, j);
    SameTag(tags, q, j, k);
  }

  lemma SameTag(tags: TagRegs, q: seq<Flight>, j: nat, k: nat)
    requires TagsOk(tags, q) && j < |q| && k < |q| && q[j].tag == q[k].tag
    ensures j == k
  {}

  /** The youngest outstanding writer of an operand's register has no result to give yet. */
  ghost predicate WaitsFor(ex1Bypass: bool, p: Pipe, i: Input, o: Operand) {
    o.valid && exists k: nat :: Youngest(p.q, k, o.reg) && !AtHand(ex1Bypass, p, i, k)
  }

  /** An operand makes its instruction wait exactly then. */
  lemma StallsExactly(ex1Bypass: bool, s: State, p: Pipe, i: Input, o: Operand)
    requires BoardOk(s.tags, p.q) && EnvOk(ex1Bypass, s, p, i)
    ensures Stalls(ex1Bypass, s.tags, o, i, TAG_COUNT) <==> WaitsFor(ex1Bypass, p, i, o)
  {
    hide EnvOk, Available, AtHand;
    forall m | 0 <= m < TAG_COUNT && Wanted(s.tags[m], o)
      ensures exists k: nat :: Youngest(p.q, k, o.reg) && p.q[k].tag == m
    {
      assert HasTag(p.q, m);
      var k: nat :| k < |p.q| && p.q[k].tag == m;
      assert Youngest(p.q, k, p.q[k].reg);
    }
    if k: nat :| Youngest(p.q, k, o.reg) {
      AvailableMeans(ex1Bypass, s, p, i, k);
      forall m | 0 <= m < TAG_COUNT && Wanted(s.tags[m], o) ensures m == p.q[k].tag {}
      if o.valid { StallsOne(ex1Bypass, s.tags, o, i, TAG_COUNT, p.q[k].tag); } else { NoStall(ex1Bypass, s.tags, o, i, TAG_COUNT); }
    } else {
      NoStall(ex1Bypass, s.tags, o, i, TAG_COUNT);
    }
  }

  lemma NoStall(ex1Bypass: bool, tags: TagRegs, o: Operand, i: Input, n: nat)
    requires n <= TAG_COUNT && forall m | 0 <= m < TAG_COUNT :: !Wanted(tags[m], o)
    ensures !Stalls(ex1Bypass, tags, o, i, n)
  {}

  // ---------------------------------------------------------------- preservation

  function Retired(tags: TagRegs, i: Input): TagRegs {
    if i.complete && i.completeTag < TAG_COUNT
    then tags[i.completeTag := tags[i.completeTag].(valid := false, wrGpr := false)] else tags
  }

  lemma YoungestTail(q: seq<Flight>, k: nat, r: nat)
    requires k + 1 < |q|
    ensures Youngest(q[1..], k, r) <==> Youngest(q, k + 1, r)
  {
    var rest := q[1..];
    if Youngest(rest, k, r) {
      forall m | k + 1 < m < |q| ensures !WritesReg(q[m], r) { assert q[m] == rest[m - 1]; }
    }
  }

  lemma YoungestAppend(q: seq<Flight>, f: Flight, k: nat, r: nat)
    requires k < |q|
    ensures Youngest(q + [f], k, r) <==> Youngest(q, k, r) && !WritesReg(f, r)
  {
    var q' := q + [f];
    if Youngest(q', k, r) {
      assert q'[|q|] == f;
      forall m | k < m < |q| ensures !WritesReg(q[m], r) { assert q'[m] == q[m]; }
    }
  }

  lemma BoardRetires(tags: TagRegs, p: Pipe, i: Input)
    requires BoardOk(tags, p.q) && (i.complete ==> |p.q| > 0 && i.completeTag == p.q[0].tag)
    ensures BoardOk(Retired(tags, i), Remaining(p, i))
  {
    if i.complete {
      var q := p.q;
      var rest := Remaining(p, i);
      forall n | 0 <= n < TAG_COUNT && Retired(tags, i)[n].valid ensures HasTag(rest, n) {
        assert HasTag(q, n);
        var k :| 0 <= k < |q| && q[k].tag == n;
        assert rest[k - 1].tag == n;
      }
      forall k | 0 <= k < |rest| ensures Youngest(rest, k, rest[k].reg) <==> Youngest(q, k + 1, q[k + 1].reg) {
        YoungestTail(q, k, rest[k].reg);
      }
    }
  }

  function Issued(tags: TagRegs, curr: nat, wr: bool, dst: nat): TagRegs
    requires curr < TAG_COUNT
  {
    var cleared: TagRegs := seq(TAG_COUNT, n requires 0 <= n < TAG_COUNT =>
                                  if wr && tags[n].reg == dst then tags[n].(recent := false) else tags[n]);
    cleared[curr := TagReg(true, wr, dst, wr)]
  }

  lemma TagsIssue(tags: TagRegs, q: seq<Flight>, f: Flight)
    requires TagsOk(tags, q) && f.tag < TAG_COUNT && !HasTag(q, f.tag)
    ensures TagsOk(Issued(tags, f.tag, f.wr, f.reg), q + [f])
  {
    var q' := q + [f];
    forall n | 0 <= n < TAG_COUNT && Issued(tags, f.tag, f.wr, f.reg)[n].valid ensures HasTag(q', n) {
      if n == f.tag {
        assert q'[|q|].tag == n;
      } else {
        assert HasTag(q, n);
        var k :| 0 <= k < |q| && q[k].tag == n;
        assert q'[k].tag == n;
      }
    }
  }

  lemma RecentIssue(tags: TagRegs, q: seq<Flight>, f: Flight)
    requires BoardOk(tags, q) && f.tag < TAG_COUNT && !HasTag(q, f.tag)
    ensures RecentOk(Issued(tags, f.tag, f.wr, f.reg), q + [f])
  {
    var q' := q + [f];
    forall k | 0 <= k < |q'| && q'[k].tag < TAG_COUNT
      ensures Issued(tags, f.tag, f.wr, f.reg)[q'[k].tag].recent <==> Youngest(q', k, q'[k].reg)
    {
      if k < |q| { YoungestAppend(q, f, k, q[k].reg); }
    }
  }

  lemma StepTags(ex1Bypass: bool, s: State, i: Input)
    requires s.curr < TAG_COUNT && !i.flush && (i.complete ==> i.completeTag < TAG_COUNT)
    ensures var t := Retired(s.tags, i);
            var d := Decoding(s, i);
            Step(ex1Bypass, s, i).tags == if Issues(ex1Bypass, s, i) then Issued(t, s.curr, d.wr, d.dst) else t
  {
    var issues := Issues(ex1Bypass, s, i);
    var d := Decoding(s, i);
    var t := Retired(s.tags, i);
    var t' := if issues then Issued(t, s.curr, d.wr, d.dst) else t;
    forall n | 0 <= n < TAG_COUNT ensures t'[n] == NextTag(ex1Bypass, s, i, n) {}
  }

  /** The next tag in turn is not in use while one is free. */
  lemma TagIsFree(q: seq<Flight>, curr: nat)
    requires InTurn(q, curr) && |q| < TAG_COUNT && curr < TAG_COUNT
    ensures !HasTag(q, curr)
  {}

  lemma TurnStep(ex1Bypass: bool, s: State, p: Pipe, i: Input)
    requires InTurn(p.q, s.curr) && s.curr < TAG_COUNT && EnvOk(ex1Bypass, s, p, i)
    ensures InTurn(Remaining(p, i), s.curr)
    ensures InTurn(NextPipe(ex1Bypass, s, p, i).q, Step(ex1Bypass, s, i).curr)
  {
    hide InTurn, GprStall, Decoding, NextTag, NextDc2, NextRegs, OnBus, Carries;
    TurnRetires(s, p, i);
    if Issues(ex1Bypass, s, i) {
      TurnIssues(Remaining(p, i), s.curr, Flight(s.curr, Decoding(s, i).wr, Decoding(s, i).dst, Decoding(s, i).result));
    } else if i.flush {
      TurnEmpty(s.curr);
    }
  }

  lemma TurnRetires(s: State, p: Pipe, i: Input)
    requires InTurn(p.q, s.curr)
    ensures InTurn(Remaining(p, i), s.curr)
  {}

  lemma TurnEmpty(curr: nat)
    ensures InTurn([], curr)
  {}

  lemma TurnIssues(q: seq<Flight>, curr: nat, f: Flight)
    requires InTurn(q, curr) && |q| < TAG_COUNT && curr < TAG_COUNT && f.tag == curr
    ensures InTurn(q + [f], (curr + 1) % TAG_COUNT)
  {}

  lemma BoardStep(ex1Bypass: bool, init: map<nat, int>, s: State, p: Pipe, i: Input)
    requires Inv(init, s, p) && EnvOk(ex1Bypass, s, p, i)
    ensures BoardOk(Step(ex1Bypass, s, i).tags, NextPipe(ex1Bypass, s, p, i).q)
  {
    if !i.flush {
      BoardRetires(s.tags, p, i);
      StepTags(ex1Bypass, s, i);
      if Issues(ex1Bypass, s, i) {
        var d := Decoding(s, i);
        var rest := Remaining(p, i);
        TurnStep(ex1Bypass, s, p, i);
        TagIsFree(rest, s.curr);
        TagsIssue(Retired(s.tags, i), rest, Flight(s.curr, d.wr, d.dst, d.result));
        RecentIssue(Retired(s.tags, i), rest, Flight(s.curr, d.wr, d.dst, d.result));
      }
    }
  }

  /** An operand of a waiting instruction with no writer left outstanding has the committed value. */
  lemma WaitOperand(ex1Bypass: bool, s: State, p: Pipe, i: Input, n: nat)
    requires BoardOk(s.tags, p.q) && WaitOk(s.dc2, p) && EnvOk(ex1Bypass, s, p, i) && n < PORTS
    requires var o := Decoding(s, i).srcs[n]; o.valid && NoWriter(Remaining(p, i), o.reg)
    ensures Capture(ex1Bypass, s, i, n) == RegOf(NextRegs(p, i), Decoding(s, i).srcs[n].reg)
  {
    hide BoardOk, Stalls, Issues;
    var r := Decoding(s, i).srcs[n].reg;
    if NoWriter(p.q, r) {
      SelectsNothing(ex1Bypass, s, p, i, r);
    } else {
      OnlyOldest(p, i, r);
      SelectsYoungest(ex1Bypass, s, p, i, r, 0);
    }
  }

  lemma WaitConstant(ex1Bypass: bool, s: State, p: Pipe, i: Input, n: nat)
    requires WaitOk(s.dc2, p) && n < PORTS && !Decoding(s, i).srcs[n].valid
    ensures Capture(ex1Bypass, s, i, n) == Decoding(s, i).srcs[n].imm
  {}

  lemma OnlyOldest(p: Pipe, i: Input, r: nat)
    requires !NoWriter(p.q, r) && NoWriter(Remaining(p, i), r)
    ensures i.complete && Youngest(p.q, 0, r)
  {
    var k := FindYoungest(p.q, r);
    assert k == 0;
  }

  /** A waiting instruction captures a result no later than the cycle in which it is committed. */
  lemma WaitStep(ex1Bypass: bool, init: map<nat, int>, s: State, p: Pipe, i: Input)
    requires Inv(init, s, p) && EnvOk(ex1Bypass, s, p, i)
    ensures WaitOk(Step(ex1Bypass, s, i).dc2, NextPipe(ex1Bypass, s, p, i))
  {
    hide BoardOk, HistOk, NextTag, EnvOk, NextRegs, NoWriter, GprStall, Capture;
    var d := NextDc2(ex1Bypass, s, i);
    var p' := NextPipe(ex1Bypass, s, p, i);
    if d.busy {
      forall n | 0 <= n < PORTS && d.instr.srcs[n].valid && NoWriter(p'.q, d.instr.srcs[n].reg)
        ensures d.data[n] == RegOf(p'.regs, d.instr.srcs[n].reg)
      {
        WaitOperand(ex1Bypass, s, p, i, n);
      }
      forall n | 0 <= n < PORTS && !d.instr.srcs[n].valid ensures d.data[n] == d.instr.srcs[n].imm {
        WaitConstant(ex1Bypass, s, p, i, n);
      }
    }
  }

  lemma HistRetires(init: map<nat, int>, p: Pipe, i: Input)
    requires HistOk(init, p) && (i.complete ==> |p.q| > 0)
    ensures HistOk(init, Pipe(Remaining(p, i), NextRegs(p, i), p.hist))
  {
    if i.complete {
      var cut := |p.hist| - |p.q|;
      assert p.hist[cut] == p.q[0];
      assert p.hist[cut + 1..] == p.q[1..];
      var done := p.hist[..cut + 1];
      assert done[..|done| - 1] == p.hist[..cut] && done[|done| - 1] == p.q[0];
      forall r: nat ensures RegOf(NextRegs(p, i), r) == LastWrite(init, done, r) {
        assert RegOf(p.regs, r) == LastWrite(init, p.hist[..cut], r);
        assert done != [];
      }
      assert p.hist[..|p.hist| - |Remaining(p, i)|] == done;
    }
  }

  lemma HistStep(ex1Bypass: bool, init: map<nat, int>, s: State, p: Pipe, i: Input)
    requires Inv(init, s, p) && EnvOk(ex1Bypass, s, p, i)
    ensures HistOk(init, NextPipe(ex1Bypass, s, p, i))
  {
    hide LastWrite, BoardOk, WaitOk, Issues, NextRegs, Decoding;
    HistRetires(init, p, i);
    var rest := Remaining(p, i);
    var cut := |p.hist| - |rest|;
    if i.flush {
      assert p.hist[..cut][..cut] == p.hist[..cut];
    } else if Issues(ex1Bypass, s, i) {
      var f := Flight(s.curr, Decoding(s, i).wr, Decoding(s, i).dst, Decoding(s, i).result);
      assert (p.hist + [f])[cut..] == p.hist[cut..] + [f];
      assert (p.hist + [f])[..cut] == p.hist[..cut];
    }
  }

  lemma StepInv(ex1Bypass: bool, init: map<nat, int>, s: State, p: Pipe, i: Input)
    requires Inv(init, s, p) && EnvOk(ex1Bypass, s, p, i)
    ensures Inv(init, Step(ex1Bypass, s, i), NextPipe(ex1Bypass, s, p, i))
  {
    TurnStep(ex1Bypass, s, p, i);
    BoardStep(ex1Bypass, init, s, p, i);
    WaitStep(ex1Bypass, init, s, p, i);
    HistStep(ex1Bypass, init, s, p, i);
  }

  // ---------------------------------------------------------------- runs

  datatype System = System(s: State, p: Pipe)

  ghost function Run(ex1Bypass: bool, y: System, ins: seq<Input>): System
    decreases |ins|
  {
    if ins == [] then y
    else
      var z := Run(ex1Bypass, y, ins[..|ins| - 1]);
      System(Step(ex1Bypass, z.s, ins[|ins| - 1]), NextPipe(ex1Bypass, z.s, z.p, ins[|ins| - 1]))
  }

  ghost predicate RunOk(ex1Bypass: bool, y: System, ins: seq<Input>)
    decreases |ins|
  {
    ins == [] ||
    (var z := Run(ex1Bypass, y, ins[..|ins| - 1]);
     RunOk(ex1Bypass, y, ins[..|ins| - 1]) && EnvOk(ex1Bypass, z.s, z.p, ins[|ins| - 1]))
  }

  /** After reset nothing is outstanding or waiting. */
  ghost predicate Starts(y: System) {
    && y.s.curr == 0 && (forall n | 0 <= n < TAG_COUNT :: !y.s.tags[n].valid)
    && !y.s.dc2.valid && !y.s.dc2.busy && y.p.q == [] && y.p.hist == []
  }

  lemma {:induction false} RunInv(ex1Bypass: bool, y: System, ins: seq<Input>)
    requires Starts(y) && RunOk(ex1Bypass, y, ins)
    ensures Inv(y.p.regs, Run(ex1Bypass, y, ins).s, Run(ex1Bypass, y, ins).p)
    decreases |ins|
  {
    if ins == [] {
    } else {
      RunInv(ex1Bypass, y, ins[..|ins| - 1]);
      var z := Run(ex1Bypass, y, ins[..|ins| - 1]);
      StepInv(ex1Bypass, y.p.regs, z.s, z.p, ins[|ins| - 1]);
    }
  }

  /** In every run, with or without the execute bypasses and whatever flushes, stalls and completion
      times occur, an instruction that issues carries its constants and, for each register operand, the
      result of the youngest earlier writer in program order. */
  lemma OperandsAreYoungestWrites(ex1Bypass: bool, y: System, ins: seq<Input>, i: Input, n: nat)
    requires Starts(y) && RunOk(ex1Bypass, y, ins)
    requires var z := Run(ex1Bypass, y, ins); EnvOk(ex1Bypass, z.s, z.p, i) && Issues(ex1Bypass, z.s, i)
    requires n < PORTS
    ensures var z := Run(ex1Bypass, y, ins);
            var d := Step(ex1Bypass, z.s, i).dc2;
            && d.valid && d.instr == Decoding(z.s, i)
            && d.data[n] == if d.instr.srcs[n].valid then LastWrite(y.p.regs, z.p.hist, d.instr.srcs[n].reg)
                            else d.instr.srcs[n].imm
  {
    RunInv(ex1Bypass, y, ins);
    var z := Run(ex1Bypass, y, ins);
    IssuedOperand(ex1Bypass, y.p.regs, z.s, z.p, i, n);
  }

  /** In every run an instruction in decode issues exactly if nothing else holds it back and each of its
      register operands is committed, on a bus, or completing. */
  lemma ReadyIssues(ex1Bypass: bool, y: System, ins: seq<Input>, i: Input)
    requires Starts(y) && RunOk(ex1Bypass, y, ins)
    requires var z := Run(ex1Bypass, y, ins); EnvOk(ex1Bypass, z.s, z.p, i)
    ensures var z := Run(ex1Bypass, y, ins);
      Issues(ex1Bypass, z.s, i) <==>
        (&& (i.dValid || z.s.dc2.busy) && !i.flush && !i.hold && !(z.s.dc2.valid && i.busyIn)
         && forall n | 0 <= n < PORTS :: !WaitsFor(ex1Bypass, z.p, i, Decoding(z.s, i).srcs[n]))
  {
    RunInv(ex1Bypass, y, ins);
    var z := Run(ex1Bypass, y, ins);
    forall n | 0 <= n < PORTS
      ensures Stalls(ex1Bypass, z.s.tags, Decoding(z.s, i).srcs[n], i, TAG_COUNT)
        == WaitsFor(ex1Bypass, z.p, i, Decoding(z.s, i).srcs[n])
    {
      StallsExactly(ex1Bypass, z.s, z.p, i, Decoding(z.s, i).srcs[n]);
    }
  }

  /** In every run at most four instructions are outstanding, with tags in turn, and an instruction that
      issues gets a tag that none of those has. */
  lemma TagsAreFree(ex1Bypass: bool, y: System, ins: seq<Input>, i: Input)
    requires Starts(y) && RunOk(ex1Bypass, y, ins)
    requires var z := Run(ex1Bypass, y, ins); EnvOk(ex1Bypass, z.s, z.p, i) && Issues(ex1Bypass, z.s, i)
    ensures var z := Run(ex1Bypass, y, ins);
      z.s.curr < TAG_COUNT && InTurn(z.p.q, z.s.curr) && !HasTag(Remaining(z.p, i), z.s.curr)
  {
    RunInv(ex1Bypass, y, ins);
    var z := Run(ex1Bypass, y, ins);
    TurnStep(ex1Bypass, z.s, z.p, i);
    TagIsFree(Remaining(z.p, i), z.s.curr);
  }

  // ---------------------------------------------------------------- program order

  /** An instruction with its operands. */
  datatype Ready = Ready(instr: Instr, data: Values)

  /** Instructions taken from the first decode stage, issued, and taken by execution; a flush drops those
      that execution has not taken. */
  datatype Flow = Flow(taken: seq<Instr>, issued: seq<Ready>, handed: seq<Ready>)

  ghost function Instrs(rs: seq<Ready>): seq<Instr> { seq(|rs|, k requires 0 <= k < |rs| => rs[k].instr) }

  /** The first decode stage goes on unless it is told to stall. */
  predicate StallOut(s: State, i: Input) { s.dc2.busy || (s.dc2.valid && i.busyIn) }

  ghost function NextFlow(ex1Bypass: bool, f: Flow, s: State, i: Input): Flow {
    if i.flush then Flow(Instrs(f.handed), f.handed, f.handed)
    else
      Flow(if i.dValid && !StallOut(s, i) then f.taken + [i.instr] else f.taken,
           if Issues(ex1Bypass, s, i) then f.issued + [Ready(Decoding(s, i), Captured(ex1Bypass, s, i))] else f.issued,
           if s.dc2.valid && !i.busyIn then f.handed + [Ready(s.dc2.instr, s.dc2.data)] else f.handed)
  }

  ghost function FlowOf(ex1Bypass: bool, y: System, ins: seq<Input>): Flow
    decreases |ins|
  {
    if ins == [] then Flow([], [], [])
    else NextFlow(ex1Bypass, FlowOf(ex1Bypass, y, ins[..|ins| - 1]), Run(ex1Bypass, y, ins[..|ins| - 1]).s, ins[|ins| - 1])
  }

  /** The output register holds the one instruction that is issued and not handed over, or the one that is
      taken and not issued. */
  ghost predicate FlowOk(f: Flow, d: Dc2) {
    && !(d.valid && d.busy)
    && f.issued == f.handed + (if d.valid then [Ready(d.instr, d.data)] else [])
    && f.taken == Instrs(f.issued) + if d.busy then [d.instr] else []
  }

  lemma FlowStep(ex1Bypass: bool, f: Flow, s: State, i: Input)
    requires FlowOk(f, s.dc2)
    ensures FlowOk(NextFlow(ex1Bypass, f, s, i), Step(ex1Bypass, s, i).dc2)
  {
    hide GprStall, Captured;
    var f' := NextFlow(ex1Bypass, f, s, i);
    if Issues(ex1Bypass, s, i) {
      assert Instrs(f'.issued) == Instrs(f.issued) + [Decoding(s, i)];
    }
  }

  /** In every run, whatever stalls and flushes occur, every instruction taken is issued once, in order, and
      handed over once, in order and with the operands it was issued with, but for the one in the output
      register and those a flush has dropped. */
  lemma {:induction false} NoneLostOrRepeated(ex1Bypass: bool, y: System, ins: seq<Input>)
    requires Starts(y)
    ensures FlowOk(FlowOf(ex1Bypass, y, ins), Run(ex1Bypass, y, ins).s.dc2)
    decreases |ins|
  {
    if ins == [] {
    } else {
      NoneLostOrRepeated(ex1Bypass, y, ins[..|ins| - 1]);
      FlowStep(ex1Bypass, FlowOf(ex1Bypass, y, ins[..|ins| - 1]), Run(ex1Bypass, y, ins[..|ins| - 1]).s, ins[|ins| - 1]);
    }
  }
}
